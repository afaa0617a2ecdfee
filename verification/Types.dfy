/** Types and constants shared by the modules of this project. */
module Types {

  datatype Option<+T> = None | Some(value: T)

  const ACTUATOR_COUNT: nat := 16

  function Last<T>(s: seq<T>): T
    requires |s| > 0
  {
    s[|s| - 1]
  }
}
