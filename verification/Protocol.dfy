/** The CAN-FD codec of cpp/src/hand_core/comms/canfd/protocol.cpp: which frame carries which
    signal, and the little-endian payloads, byte by byte. */
module Protocol {
  import opened Types
  import opened Frames

  // ------------------------------ Little endian -------------------------------

  type Byte = x: int | 0 <= x < 256

  const TWO16: int := 0x1_0000
  const TWO32: int := 0x1_0000_0000
  const INT32_MIN: int := -0x8000_0000
  const INT32_MAX: int := 0x7FFF_FFFF

  predicate IsInt16(x: int) { -0x8000 <= x <= 0x7FFF }
  predicate IsInt32(x: int) { INT32_MIN <= x <= INT32_MAX }
  predicate IsInt8(x: int) { -0x80 <= x <= 0x7F }

  // Two's complement: the signed value of the low bits
  function Signed16(u: int): int { if u % TWO16 < 0x8000 then u % TWO16 else u % TWO16 - TWO16 }
  function Signed32(u: int): int { if u % TWO32 <= INT32_MAX then u % TWO32 else u % TWO32 - TWO32 }

  function ByteOf(x: int, j: nat): Byte {
    if j == 0 then x % 256
    else if j == 1 then x / 0x100 % 256
    else if j == 2 then x / 0x1_0000 % 256
    else x / 0x100_0000 % 256
  }

  function ReadUint16(b: seq<Byte>, at: nat): nat
    requires at + 2 <= |b|
  {
    b[at] as int + 0x100 * (b[at + 1] as int)
  }

  function ReadInt16(b: seq<Byte>, at: nat): int
    requires at + 2 <= |b|
  {
    Signed16(ReadUint16(b, at))
  }

  function ReadInt32(b: seq<Byte>, at: nat): int
    requires at + 4 <= |b|
  {
    Signed32(b[at] as int + 0x100 * (b[at + 1] as int) + 0x1_0000 * (b[at + 2] as int) + 0x100_0000 * (b[at + 3] as int))
  }

  function WordOf(low: Byte, high: Byte): bv16 { (low as int + 0x100 * (high as int)) as bv16 }

  function ReadWord(b: seq<Byte>, at: nat): bv16
    requires at + 2 <= |b|
  {
    WordOf(b[at], b[at + 1])
  }

  lemma Bytes32(x: int)
    requires IsInt32(x)
    ensures Signed32(ByteOf(x, 0) + 0x100 * ByteOf(x, 1) + 0x1_0000 * ByteOf(x, 2) + 0x100_0000 * ByteOf(x, 3)) == x
  {
    var y := x / 0x100;
    var z := y / 0x100;
    var w := z / 0x100;
    DivisionsNest(x);
    assert x == 0x100 * y + x % 0x100 && y == 0x100 * z + y % 0x100 && z == 0x100 * w + z % 0x100 && w == 0x100 * (w / 0x100) + w % 0x100;
    Wrapped(x, w / 0x100);
  }

  lemma DivisionsNest(x: int)
    ensures x / 0x1_0000 == x / 0x100 / 0x100 && x / 0x100_0000 == x / 0x100 / 0x100 / 0x100
  {}

  lemma Wrapped(x: int, k: int)
    requires IsInt32(x) && 0 <= x - TWO32 * k < TWO32
    ensures Signed32(x - TWO32 * k) == x
  {}

  lemma WordBytes(w: bv16)
    ensures WordOf(ByteOf(w as int, 0), ByteOf(w as int, 1)) == w
  {
    hide ByteOf;
    SplitWord(w as int);
    Word16(w as int, ByteOf(w as int, 0), ByteOf(w as int, 1));
    IntOfWord(w);
  }

  lemma SplitWord(u: int)
    requires 0 <= u < TWO16
    ensures ByteOf(u, 0) as int + 0x100 * (ByteOf(u, 1) as int) == u
  {}

  lemma IntOfWord(w: bv16)
    ensures (w as int) as bv16 == w
  {}

  lemma Word16(u: int, low: Byte, high: Byte)
    requires 0 <= u < TWO16 && low as int + 0x100 * (high as int) == u
    ensures WordOf(low, high) == u as bv16
  {}

  lemma Bytes16(x: int)
    requires IsInt16(x) || 0 <= x < TWO16
    ensures ByteOf(x, 0) + 0x100 * ByteOf(x, 1) == x % TWO16
    ensures IsInt16(x) ==> Signed16(ByteOf(x, 0) + 0x100 * ByteOf(x, 1)) == x
  {}

  // The four bytes of a number, the low one first: these and no others read as it
  lemma BytesOfInt32(b: seq<Byte>, at: nat, v: int)
    requires at + 4 <= |b| && IsInt32(v)
    ensures ReadInt32(b, at) == v <==>
              b[at] == v % 256 && b[at + 1] == v / 256 % 256 && b[at + 2] == v / 65536 % 256 && b[at + 3] == v / 16777216 % 256
  {
    hide Signed32;
    Bytes32(v);
    var u := Digits(b[at], b[at + 1], b[at + 2], b[at + 3]);
    SignedIs(u);
    SameDigits(u);
  }

  lemma SignedIs(u: int)
    requires 0 <= u < TWO32
    ensures Signed32(u) == if u <= INT32_MAX then u else u - TWO32
  {}

  lemma Digits(b0: int, b1: int, b2: int, b3: int) returns (u: int)
    requires 0 <= b0 < 256 && 0 <= b1 < 256 && 0 <= b2 < 256 && 0 <= b3 < 256
    ensures u == b0 + 0x100 * b1 + 0x1_0000 * b2 + 0x100_0000 * b3 && 0 <= u < TWO32
    ensures u % 256 == b0 && u / 256 % 256 == b1 && u / 65536 % 256 == b2 && u / 16777216 % 256 == b3
  {
    u := b0 + 0x100 * b1 + 0x1_0000 * b2 + 0x100_0000 * b3;
    assert u / 256 == b1 + 256 * b2 + 65536 * b3;
    assert u / 65536 == b2 + 256 * b3;
    assert u / 16777216 == b3;
  }

  // Taking off the wrap moves each digit by whole turns
  lemma SameDigits(u: int)
    ensures (u - TWO32) % 256 == u % 256 && (u - TWO32) / 256 % 256 == u / 256 % 256
    ensures (u - TWO32) / 65536 % 256 == u / 65536 % 256 && (u - TWO32) / 16777216 % 256 == u / 16777216 % 256
  {
    TurnedDivisions(u);
    TurnedLess(u / 256, 16777216);
    TurnedLess(u / 65536, 65536);
    TurnedLess(u / 16777216, 256);
  }

  lemma TurnedDivisions(u: int)
    ensures (u - TWO32) % 256 == u % 256 && (u - TWO32) / 256 == u / 256 - 16777216
    ensures (u - TWO32) / 65536 == u / 65536 - 65536 && (u - TWO32) / 16777216 == u / 16777216 - 256
  {}

  lemma TurnedLess(q: int, turns: int)
    requires turns == 16777216 || turns == 65536 || turns == 256
    ensures (q - turns) % 256 == q % 256
  {}

  // The two bytes of a shorter one
  lemma BytesOfInt16(b: seq<Byte>, at: nat, v: int)
    requires at + 2 <= |b| && IsInt16(v)
    ensures ReadInt16(b, at) == v <==> b[at] == v % 256 && b[at + 1] == v / 256 % 256
    ensures ReadUint16(b, at) == v <==> v >= 0 && b[at] == v % 256 && b[at + 1] == v / 256
  {
    hide Signed16;
    SignedIs16(ReadUint16(b, at));
    TwoDigits(b[at], b[at + 1]);
    OwnDigits(v);
  }

  lemma TwoDigits(low: int, high: int)
    requires 0 <= low < 256 && 0 <= high < 256
    ensures (low + 0x100 * high) % 256 == low && (low + 0x100 * high) / 256 == high
    ensures (low + 0x100 * high - TWO16) % 256 == low && (low + 0x100 * high - TWO16) / 256 % 256 == high
  {
    assert (low + 0x100 * high - TWO16) / 256 == high - 256;
  }

  lemma OwnDigits(v: int)
    requires IsInt16(v)
    ensures v % 256 + 0x100 * (v / 256 % 256) == if v < 0 then v + TWO16 else v
  {}

  lemma SignedIs16(u: int)
    requires 0 <= u < TWO16
    ensures Signed16(u) == if u < 0x8000 then u else u - TWO16
  {}

  // A status or control word comes with its low half first
  lemma BytesOfWord(b: seq<Byte>, at: nat, w: bv16)
    requires at + 2 <= |b| && b[at] == w as int % 256 && b[at + 1] == w as int / 256
    ensures ReadWord(b, at) == w
  {
    hide WordOf, ByteOf;
    WordBytes(w);
    HalvesOf(w as int);
  }

  lemma HalvesOf(u: int)
    requires 0 <= u < TWO16
    ensures ByteOf(u, 0) == u % 256 && ByteOf(u, 1) == u / 256
  {}

  // --------------------------- Arrays of values ------------------------------

  function Int32s(b: seq<Byte>, at: nat, n: nat): (v: seq<int>)
    requires at + 4 * n <= |b|
    ensures |v| == n && forall i :: 0 <= i < n ==> v[i] == ReadInt32(b, at + 4 * i)
  {
    seq(n, i requires 0 <= i < n => ReadInt32(b, at + 4 * i))
  }

  function Int16s(b: seq<Byte>, at: nat, n: nat): (v: seq<int>)
    requires at + 2 * n <= |b|
    ensures |v| == n && forall i :: 0 <= i < n ==> v[i] == ReadInt16(b, at + 2 * i)
  {
    seq(n, i requires 0 <= i < n => ReadInt16(b, at + 2 * i))
  }

  function Uint16s(b: seq<Byte>, at: nat, n: nat): (v: seq<nat>)
    requires at + 2 * n <= |b|
    ensures |v| == n && forall i :: 0 <= i < n ==> v[i] == ReadUint16(b, at + 2 * i)
  {
    seq(n, i requires 0 <= i < n => ReadUint16(b, at + 2 * i))
  }

  function Words(b: seq<Byte>, at: nat, n: nat): (v: seq<bv16>)
    requires at + 2 * n <= |b|
    ensures |v| == n && forall i :: 0 <= i < n ==> v[i] == ReadWord(b, at + 2 * i)
  {
    seq(n, i requires 0 <= i < n => ReadWord(b, at + 2 * i))
  }

  method WriteInt32Array(b: array<Byte>, at: nat, v: seq<int>)
    requires at + 4 * |v| <= b.Length && forall i :: 0 <= i < |v| ==> IsInt32(v[i])
    modifies b
    ensures forall i :: 0 <= i < |v| ==> ReadInt32(b[..], at + 4 * i) == v[i]
    ensures forall k :: 0 <= k < b.Length && !(at <= k < at + 4 * |v|) ==> b[k] == old(b[k])
  {
    for i := 0 to |v|
      invariant forall j :: 0 <= j < i ==> ReadInt32(b[..], at + 4 * j) == v[j]
      invariant forall k :: 0 <= k < b.Length && !(at <= k < at + 4 * i) ==> b[k] == old(b[k])
    {
      var k := at + 4 * i;
      b[k], b[k + 1], b[k + 2], b[k + 3] := ByteOf(v[i], 0), ByteOf(v[i], 1), ByteOf(v[i], 2), ByteOf(v[i], 3);
      Bytes32(v[i]);
    }
  }

  method WriteInt16Array(b: array<Byte>, at: nat, v: seq<int>)
    requires at + 2 * |v| <= b.Length && forall i :: 0 <= i < |v| ==> IsInt16(v[i])
    modifies b
    ensures forall i :: 0 <= i < |v| ==> ReadInt16(b[..], at + 2 * i) == v[i]
    ensures forall k :: 0 <= k < b.Length && !(at <= k < at + 2 * |v|) ==> b[k] == old(b[k])
  {
    for i := 0 to |v|
      invariant forall j :: 0 <= j < i ==> ReadInt16(b[..], at + 2 * j) == v[j]
      invariant forall k :: 0 <= k < b.Length && !(at <= k < at + 2 * i) ==> b[k] == old(b[k])
    {
      b[at + 2 * i], b[at + 2 * i + 1] := ByteOf(v[i], 0), ByteOf(v[i], 1);
      Bytes16(v[i]);
    }
  }

  method WriteWordArray(b: array<Byte>, at: nat, v: seq<bv16>)
    requires at + 2 * |v| <= b.Length
    modifies b
    ensures forall i :: 0 <= i < |v| ==> ReadWord(b[..], at + 2 * i) == v[i]
    ensures forall k :: 0 <= k < b.Length && !(at <= k < at + 2 * |v|) ==> b[k] == old(b[k])
  {
    hide WordOf, ByteOf;
    for i := 0 to |v|
      invariant forall j :: 0 <= j < i ==> ReadWord(b[..], at + 2 * j) == v[j]
      invariant forall k :: 0 <= k < b.Length && !(at <= k < at + 2 * i) ==> b[k] == old(b[k])
    {
      var w := v[i] as int;
      b[at + 2 * i], b[at + 2 * i + 1] := ByteOf(w, 0), ByteOf(w, 1);
      WordBytes(v[i]);
    }
  }

  method WriteInt8Array(b: array<Byte>, v: seq<int>)
    requires |v| <= b.Length && forall i :: 0 <= i < |v| ==> IsInt8(v[i])
    modifies b
    ensures forall i :: 0 <= i < |v| ==> b[i] == v[i] % 256
    ensures forall k :: |v| <= k < b.Length ==> b[k] == old(b[k])
  {
    for i := 0 to |v|
      invariant forall j :: 0 <= j < i ==> b[j] == v[j] % 256
      invariant forall k :: i <= k < b.Length ==> b[k] == old(b[k])
    {
      b[i] := v[i] % 256;
    }
  }

  method ReadInt32Array(b: seq<Byte>, n: nat) returns (v: seq<int>)
    requires 4 * n <= |b|
    ensures v == Int32s(b, 0, n)
  {
    v := [];
    for i := 0 to n
      invariant |v| == i && forall j :: 0 <= j < i ==> v[j] == ReadInt32(b, 4 * j)
    {
      v := v + [ReadInt32(b, 4 * i)];
    }
  }

  method ReadInt16Array(b: seq<Byte>, n: nat) returns (v: seq<int>)
    requires 2 * n <= |b|
    ensures v == Int16s(b, 0, n)
  {
    v := [];
    for i := 0 to n
      invariant |v| == i && forall j :: 0 <= j < i ==> v[j] == ReadInt16(b, 2 * j)
    {
      v := v + [ReadInt16(b, 2 * i)];
    }
  }

  method ReadUint16Array(b: seq<Byte>, n: nat) returns (v: seq<nat>)
    requires 2 * n <= |b|
    ensures v == Uint16s(b, 0, n)
  {
    v := [];
    for i := 0 to n
      invariant |v| == i && forall j :: 0 <= j < i ==> v[j] == ReadUint16(b, 2 * j)
    {
      v := v + [ReadUint16(b, 2 * i)];
    }
  }

  method ReadWordArray(b: seq<Byte>, at: nat, n: nat) returns (v: seq<bv16>)
    requires at + 2 * n <= |b|
    ensures v == Words(b, at, n)
  {
    hide WordOf;
    v := [];
    for i := 0 to n
      invariant |v| == i && forall j :: 0 <= j < i ==> v[j] == ReadWord(b, at + 2 * j)
    {
      v := v + [ReadWord(b, at + 2 * i)];
    }
  }

  // ------------------------------ Identifiers --------------------------------

  datatype HandSide = Left | Right

  // A canfd_frame: 32-bit can_id, payload length, 64 data bytes
  datatype RawFrame = RawFrame(canId: nat, len: nat, data: seq<Byte>)
  type CanFrame = f: RawFrame | |f.data| == 64 witness RawFrame(0, 0, seq(64, _ => 0))

  const CAN_ERR_FLAG: nat := 0x2000_0000

  predicate IsErrorFrame(rx: CanFrame) { rx.canId / CAN_ERR_FLAG % 2 == 1 }
  function IdOf(rx: CanFrame): nat { rx.canId % CAN_ERR_FLAG }

  datatype Signal =
    | Position | Velocity | Current | StatusWord
    | Finger(index: nat) | PalmUpper | PalmLower | Palm2

  predicate Exists(signal: Signal) { signal.Finger? ==> signal.index < FINGER_COUNT }

  function Base(side: HandSide): nat { if side.Left? then 0x200 else 0x100 }

  function StateId(side: HandSide, signal: Signal): nat {
    Base(side) + match signal
      case Position => 0x21
      case Velocity => 0x22
      case Current => 0x23
      case StatusWord => 0x24
      case Finger(f) => 0x31 + f
      case PalmUpper => 0x36
      case PalmLower => 0x37
      case Palm2 => 0x38
  }

  predicate IsCommandId(side: HandSide, id: nat) { Base(side) + 0x11 <= id <= Base(side) + 0x15 }

  // The id chain of decode()
  function SignalOf(side: HandSide, id: nat): (signal: Option<Signal>)
    ensures signal.Some? ==> Exists(signal.value) && StateId(side, signal.value) == id
    ensures signal.None? ==> forall s :: Exists(s) ==> StateId(side, s) != id
  {
    if id < Base(side) then None
    else
      var offset := id - Base(side);
      if offset == 0x21 then Some(Position)
      else if offset == 0x22 then Some(Velocity)
      else if offset == 0x23 then Some(Current)
      else if offset == 0x24 then Some(StatusWord)
      else if 0x31 <= offset <= 0x35 then Some(Finger(offset - 0x31))
      else if offset == 0x36 then Some(PalmUpper)
      else if offset == 0x37 then Some(PalmLower)
      else if offset == 0x38 then Some(Palm2)
      else None
  }

  // Shortest payload the protocol promises, in bytes
  function MinLength(signal: Signal): nat {
    match signal
    case Position => 4 * ACTUATOR_COUNT
    case Velocity => 4 * ACTUATOR_COUNT
    case Current => 2 * ACTUATOR_COUNT
    case StatusWord => 4 * ACTUATOR_COUNT
    case Finger(_) => 2 * TAXELS_PER_FINGER
    case PalmUpper => 2 * PALM1_UPPER_COUNT
    case PalmLower => 2 * PALM1_LOWER_COUNT
    case Palm2 => 2 * PALM2_COUNT
  }

  // The ids of both hands and the shortest payloads. They are all apart: nobody's state is another
  // signal's, another hand's, or a command
  lemma IdsAreApart(side: HandSide, other: HandSide, a: Signal, b: Signal)
    requires Exists(a) && Exists(b)
    ensures StateId(side, a) == StateId(other, b) <==> side == other && a == b
    ensures !IsCommandId(other, StateId(side, a))
    ensures forall id :: IsCommandId(side, id) <==> if side.Left? then 0x211 <= id <= 0x215 else 0x111 <= id <= 0x115
    ensures var (id, length) := match a
              case Position => (0x21, 64)
              case Velocity => (0x22, 64)
              case Current => (0x23, 32)
              case StatusWord => (0x24, 64)
              case Finger(f) => (0x31 + f, 34)
              case PalmUpper => (0x36, 40)
              case PalmLower => (0x37, 40)
              case Palm2 => (0x38, 36);
            StateId(side, a) == (if side.Left? then 0x200 else 0x100) + id && MinLength(a) == length
  {}

  // ---------------------------------- Decode ----------------------------------

  const HOME_OFFSET_COUNT: int := 1000

  datatype DecodeResult = Unknown | Decoded | ConflictingCommand | Error | LengthError

  function Classify(side: HandSide, rx: CanFrame): DecodeResult {
    if IsErrorFrame(rx) then Error
    else match SignalOf(side, IdOf(rx))
      case Some(signal) => if rx.len < MinLength(signal) then LengthError else Decoded
      case None => if IsCommandId(side, IdOf(rx)) then ConflictingCommand else Unknown
  }

  // What a frame says about its own signal
  datatype Value = Counts(counts: seq<int>) | StatusAndError(status: seq<bv16>, error: seq<bv16>) | Taxels(taxels: seq<nat>)

  // Drive origin to SDK origin, in 32-bit arithmetic
  function ToSdk(v: seq<int>): (w: seq<int>)
    ensures |w| == |v| && forall i :: 0 <= i < |v| ==> w[i] == Signed32(v[i] - HOME_OFFSET_COUNT)
  {
    seq(|v|, i requires 0 <= i < |v| => Signed32(v[i] - HOME_OFFSET_COUNT))
  }

  function ValueIn(signal: Signal, data: seq<Byte>): Value
    requires |data| == 64
  {
    match signal
    case Position => Counts(ToSdk(Int32s(data, 0, ACTUATOR_COUNT)))
    case Velocity => Counts(Int32s(data, 0, ACTUATOR_COUNT))
    case Current => Counts(Int16s(data, 0, ACTUATOR_COUNT))
    case StatusWord => StatusAndError(Words(data, 0, ACTUATOR_COUNT), Words(data, 32, ACTUATOR_COUNT))
    case Finger(_) => Taxels(Uint16s(data, 0, TAXELS_PER_FINGER))
    case PalmUpper => Taxels(Uint16s(data, 0, PALM1_UPPER_COUNT))
    case PalmLower => Taxels(Uint16s(data, 0, PALM1_LOWER_COUNT))
    case Palm2 => Taxels(Uint16s(data, 0, PALM2_COUNT))
  }

  // What the decoded state currently says about a signal
  function ValueOf(frames: StateFrames, signal: Signal): Value
    requires Exists(signal)
  {
    match signal
    case Position => Counts(frames.position)
    case Velocity => Counts(frames.velocity)
    case Current => Counts(frames.current)
    case StatusWord => StatusAndError(frames.status, frames.errorCode)
    case Finger(f) => Taxels(frames.finger[f])
    case PalmUpper => Taxels(frames.palmUpper)
    case PalmLower => Taxels(frames.palmLower)
    case Palm2 => Taxels(frames.palm2)
  }

  // The signals are all there is to a state
  lemma SameSignalsSameState(a: StateFrames, b: StateFrames)
    requires forall s :: Exists(s) ==> ValueOf(a, s) == ValueOf(b, s)
    ensures a == b
  {
    assert ValueOf(a, Position) == ValueOf(b, Position) && ValueOf(a, Velocity) == ValueOf(b, Velocity);
    assert ValueOf(a, Current) == ValueOf(b, Current) && ValueOf(a, StatusWord) == ValueOf(b, StatusWord);
    assert ValueOf(a, PalmUpper) == ValueOf(b, PalmUpper) && ValueOf(a, PalmLower) == ValueOf(b, PalmLower);
    assert ValueOf(a, Palm2) == ValueOf(b, Palm2);
    forall f | 0 <= f < FINGER_COUNT
      ensures a.finger[f] == b.finger[f]
    {
      assert ValueOf(a, Finger(f)) == ValueOf(b, Finger(f));
    }
    assert a.finger == b.finger;
  }

  function Decode(side: HandSide, rx: CanFrame, frames: StateFrames): StateFrames {
    if Classify(side, rx).Decoded? then
      var data := rx.data;
      match SignalOf(side, IdOf(rx)).value
      case Position => frames.(position := ToSdk(Int32s(data, 0, ACTUATOR_COUNT)))
      case Velocity => frames.(velocity := Int32s(data, 0, ACTUATOR_COUNT))
      case Current => frames.(current := Int16s(data, 0, ACTUATOR_COUNT))
      case StatusWord =>
        frames.(status := Words(data, 0, ACTUATOR_COUNT), errorCode := Words(data, 32, ACTUATOR_COUNT))
      case Finger(f) => frames.(finger := frames.finger[f := Uint16s(data, 0, TAXELS_PER_FINGER)])
      case PalmUpper => frames.(palmUpper := Uint16s(data, 0, PALM1_UPPER_COUNT))
      case PalmLower => frames.(palmLower := Uint16s(data, 0, PALM1_LOWER_COUNT))
      case Palm2 => frames.(palm2 := Uint16s(data, 0, PALM2_COUNT))
    else frames
  }

  predicate Carries(side: HandSide, rx: CanFrame, signal: Signal) {
    Classify(side, rx).Decoded? && SignalOf(side, IdOf(rx)) == Some(signal)
  }

  // What becomes of a received frame: the error flag goes before everything, a signal of this hand is
  // decoded where it has its length, a command can only come from another master, and the rest is foreign
  lemma FramesAreClassified(side: HandSide, rx: CanFrame, signal: Signal)
    requires Exists(signal)
    ensures rx.canId / 0x2000_0000 % 2 == 1 ==> Classify(side, rx) == Error
    ensures rx.canId == StateId(side, signal) ==> Classify(side, rx) == if rx.len >= MinLength(signal) then Decoded else LengthError
    ensures Base(side) + 0x11 <= rx.canId <= Base(side) + 0x15 ==> Classify(side, rx) == ConflictingCommand
    ensures rx.canId == StateId(if side.Left? then Right else Left, signal) ==> Classify(side, rx) == Unknown
    ensures Classify(side, rx) != Decoded ==> forall frames :: Decode(side, rx, frames) == frames
  {
    FlagIsBit29(rx);
    hide IdOf, IsErrorFrame, MinLength;
  }

  lemma FlagIsBit29(rx: CanFrame)
    ensures IsErrorFrame(rx) <==> rx.canId / 0x2000_0000 % 2 == 1
    ensures rx.canId < 0x2000_0000 ==> IdOf(rx) == rx.canId && !IsErrorFrame(rx)
  {}

  // A decoded frame sets its own signal and nothing else; any other frame sets nothing
  lemma DecodeSets(side: HandSide, rx: CanFrame, frames: StateFrames, signal: Signal)
    requires Exists(signal)
    ensures ValueOf(Decode(side, rx, frames), signal) ==
            if Carries(side, rx, signal) then ValueIn(signal, rx.data) else ValueOf(frames, signal)
  {}

  method DecodeFrame(side: HandSide, rx: CanFrame, frames: StateFrames)
    returns (result: DecodeResult, decoded: StateFrames)
    ensures result == Classify(side, rx) && decoded == Decode(side, rx, frames)
  {
    decoded := frames;
    if IsErrorFrame(rx) {
      return Error, decoded;
    }
    var signal := SignalOf(side, IdOf(rx));
    if signal.None? {
      return if IsCommandId(side, IdOf(rx)) then ConflictingCommand else Unknown, decoded;
    }
    if rx.len < MinLength(signal.value) {
      return LengthError, decoded;
    }
    match signal.value {
      case Position =>
        var position := ReadInt32Array(rx.data, ACTUATOR_COUNT);
        ghost var wire := position;
        for i := 0 to ACTUATOR_COUNT
          invariant |position| == ACTUATOR_COUNT
          invariant forall j :: 0 <= j < i ==> position[j] == Signed32(wire[j] - HOME_OFFSET_COUNT)
          invariant forall j :: i <= j < ACTUATOR_COUNT ==> position[j] == wire[j]
        {
          position := position[i := Signed32(position[i] - HOME_OFFSET_COUNT)];
        }
        assert position == ToSdk(wire);
        decoded := decoded.(position := position);
      case Velocity =>
        var velocity := ReadInt32Array(rx.data, ACTUATOR_COUNT);
        decoded := decoded.(velocity := velocity);
      case Current =>
        var current := ReadInt16Array(rx.data, ACTUATOR_COUNT);
        decoded := decoded.(current := current);
      case StatusWord =>
        var status := ReadWordArray(rx.data, 0, ACTUATOR_COUNT);
        var errorCode := ReadWordArray(rx.data, 32, ACTUATOR_COUNT);
        decoded := decoded.(status := status, errorCode := errorCode);
      case Finger(f) =>
        var taxels := ReadUint16Array(rx.data, TAXELS_PER_FINGER);
        decoded := decoded.(finger := decoded.finger[f := taxels]);
      case PalmUpper =>
        var taxels := ReadUint16Array(rx.data, PALM1_UPPER_COUNT);
        decoded := decoded.(palmUpper := taxels);
      case PalmLower =>
        var taxels := ReadUint16Array(rx.data, PALM1_LOWER_COUNT);
        decoded := decoded.(palmLower := taxels);
      case Palm2 =>
        var taxels := ReadUint16Array(rx.data, PALM2_COUNT);
        decoded := decoded.(palm2 := taxels);
    }
    return Decoded, decoded;
  }

  // ----------------------------------- Drain ----------------------------------

  function Drain(side: HandSide, queue: seq<CanFrame>, frames: StateFrames): StateFrames
    decreases |queue|
  {
    if queue == [] then frames
    else Drain(side, queue[1..], Decode(side, queue[0], frames))
  }

  // The value of the newest frame in the queue that carries the signal
  function Newest(side: HandSide, queue: seq<CanFrame>, signal: Signal): Option<Value> {
    if queue == [] then None
    else if Carries(side, Last(queue), signal) then Some(ValueIn(signal, Last(queue).data))
    else Newest(side, queue[..|queue| - 1], signal)
  }

  lemma {:induction false} DrainSnoc(side: HandSide, queue: seq<CanFrame>, rx: CanFrame, frames: StateFrames)
    ensures Drain(side, queue + [rx], frames) == Decode(side, rx, Drain(side, queue, frames))
    decreases |queue|
  {
    if queue == [] {
      assert queue + [rx] == [rx];
      assert [rx][1..] == [];
    } else {
      assert (queue + [rx])[1..] == queue[1..] + [rx];
      DrainSnoc(side, queue[1..], rx, Decode(side, queue[0], frames));
    }
  }

  // Draining leaves each signal at its newest decoded frame, and where it was if there was none
  lemma {:induction false} DrainKeepsNewest(side: HandSide, queue: seq<CanFrame>, frames: StateFrames, signal: Signal)
    requires Exists(signal)
    ensures ValueOf(Drain(side, queue, frames), signal) ==
            match Newest(side, queue, signal)
            case Some(value) => value
            case None => ValueOf(frames, signal)
    decreases |queue|
  {
    if queue != [] {
      var front, rx := queue[..|queue| - 1], Last(queue);
      assert queue == front + [rx];
      DrainSnoc(side, front, rx, frames);
      DrainKeepsNewest(side, front, frames, signal);
      DecodeSets(side, rx, Drain(side, front, frames), signal);
    }
  }

  // The order between frames of different signals is invisible: queues that agree on the newest
  // frame of every signal drain to the same state
  lemma DrainForgetsOrder(side: HandSide, queue: seq<CanFrame>, other: seq<CanFrame>, frames: StateFrames)
    requires forall s :: Exists(s) ==> Newest(side, queue, s) == Newest(side, other, s)
    ensures Drain(side, queue, frames) == Drain(side, other, frames)
  {
    var a, b := Drain(side, queue, frames), Drain(side, other, frames);
    forall s | Exists(s)
      ensures ValueOf(a, s) == ValueOf(b, s)
    {
      DrainKeepsNewest(side, queue, frames, s);
      DrainKeepsNewest(side, other, frames, s);
    }
    SameSignalsSameState(a, b);
  }

  lemma NeighboursCommute(side: HandSide, x: CanFrame, y: CanFrame, frames: StateFrames)
    requires IdOf(x) != IdOf(y)
    ensures Decode(side, x, Decode(side, y, frames)) == Decode(side, y, Decode(side, x, frames))
  {
    var a, b := Decode(side, x, Decode(side, y, frames)), Decode(side, y, Decode(side, x, frames));
    forall s | Exists(s)
      ensures ValueOf(a, s) == ValueOf(b, s)
    {
      hide Decode, Classify, ValueOf, ValueIn;
      DecodeSets(side, y, frames, s);
      DecodeSets(side, x, frames, s);
      DecodeSets(side, x, Decode(side, y, frames), s);
      DecodeSets(side, y, Decode(side, x, frames), s);
    }
    SameSignalsSameState(a, b);
  }

  // ----------------------------------- Encode ---------------------------------

  // SDK origin to drive origin, in 32-bit arithmetic
  function ToWire(v: seq<int>): (w: seq<int>)
    ensures |w| == |v| && forall i :: 0 <= i < |v| ==> w[i] == Signed32(v[i] + HOME_OFFSET_COUNT) && IsInt32(w[i])
  {
    seq(|v|, i requires 0 <= i < |v| => Signed32(v[i] + HOME_OFFSET_COUNT))
  }

  // The bytes of a target on the wire, by its place in the payload
  lemma TargetBytes(data: seq<Byte>, target: seq<int>, i: nat)
    requires |data| == 64 && |target| == ACTUATOR_COUNT && Int32s(data, 0, ACTUATOR_COUNT) == ToWire(target)
    requires i < ACTUATOR_COUNT && INT32_MIN <= target[i] <= INT32_MAX - 1000
    ensures var v := target[i] + 1000;
            && data[4 * i] == v % 256 && data[4 * i + 1] == v / 256 % 256
            && data[4 * i + 2] == v / 65536 % 256 && data[4 * i + 3] == v / 16777216 % 256
  {
    hide ReadInt32;
    assert Int32s(data, 0, ACTUATOR_COUNT)[i] == ReadInt32(data, 4 * i);
    BytesOfInt32(data, 4 * i, target[i] + 1000);
  }

  // The widths of the outgoing signals
  predicate Encodable(frames: CommandFrames) {
    forall i :: 0 <= i < ACTUATOR_COUNT ==>
      && IsInt32(frames.targetPosition[i]) && IsInt16(frames.targetEffort[i]) && IsInt16(frames.maxEffort[i])
      && IsInt8(frames.mode[i]) && IsInt8(frames.homingMethod[i])
  }

  // The five payloads, whose headers init_tx sets once
  class TxFrames {
    const targetPosition: array<Byte>
    const targetEffort: array<Byte>
    const controlWord: array<Byte>
    const mode: array<Byte>
    const homingMethod: array<Byte>

    constructor ()
      ensures Valid() && fresh(Repr())
    {
      targetPosition := new Byte[64](_ => 0);
      targetEffort := new Byte[64](_ => 0);
      controlWord := new Byte[64](_ => 0);
      mode := new Byte[64](_ => 0);
      homingMethod := new Byte[64](_ => 0);
    }

    function Repr(): set<object> { {targetPosition, targetEffort, controlWord, mode, homingMethod} }

    predicate Valid() {
      && targetPosition.Length == targetEffort.Length == controlWord.Length == mode.Length == homingMethod.Length == 64
      && targetPosition != targetEffort && targetPosition != controlWord && targetPosition != mode
      && targetPosition != homingMethod && targetEffort != controlWord && targetEffort != mode
      && targetEffort != homingMethod && controlWord != mode && controlWord != homingMethod && mode != homingMethod
    }

    // Fills every outgoing payload; each array reads back as it was given
    method Encode(frames: CommandFrames)
      requires Valid()
      requires Encodable(frames)
      modifies Repr()
      ensures Int32s(targetPosition[..], 0, ACTUATOR_COUNT) == ToWire(frames.targetPosition)
      ensures Int16s(targetEffort[..], 0, ACTUATOR_COUNT) == frames.targetEffort
      ensures Int16s(targetEffort[..], 32, ACTUATOR_COUNT) == frames.maxEffort
      ensures Words(controlWord[..], 0, ACTUATOR_COUNT) == frames.controlWord
      ensures forall i :: 0 <= i < ACTUATOR_COUNT ==> mode[i] == frames.mode[i] % 256
      ensures forall i :: 0 <= i < ACTUATOR_COUNT ==> homingMethod[i] == frames.homingMethod[i] % 256
    {
      hide WordOf, ReadInt16, ReadInt32;
      var wireTarget := ToWire(frames.targetPosition);
      WriteInt32Array(targetPosition, 0, wireTarget);
      WriteInt16Array(targetEffort, 0, frames.targetEffort);
      ghost var lower := targetEffort[..];
      WriteInt16Array(targetEffort, 32, frames.maxEffort);
      SameLowerHalf(lower, targetEffort[..]);
      WriteWordArray(controlWord, 0, frames.controlWord);
      WriteInt8Array(mode, frames.mode);
      WriteInt8Array(homingMethod, frames.homingMethod);
      assert Int32s(targetPosition[..], 0, ACTUATOR_COUNT) == wireTarget;
      assert Int16s(targetEffort[..], 0, ACTUATOR_COUNT) == frames.targetEffort;
      assert Int16s(targetEffort[..], 32, ACTUATOR_COUNT) == frames.maxEffort;
      assert Words(controlWord[..], 0, ACTUATOR_COUNT) == frames.controlWord;
    }
  }

  lemma SameLowerHalf(a: seq<Byte>, b: seq<Byte>)
    requires |a| == |b| == 64 && forall k :: 0 <= k < 32 ==> a[k] == b[k]
    ensures forall i :: 0 <= i < 16 ==> ReadInt16(a, 2 * i) == ReadInt16(b, 2 * i)
  {}

  // The decoded positions of a payload that encodes `target`: the two offsets cancel in 32-bit
  // arithmetic, whatever the target
  lemma PositionRoundTrip(side: HandSide, rx: CanFrame, frames: StateFrames, target: seq<int>)
    requires |target| == ACTUATOR_COUNT && forall i :: 0 <= i < ACTUATOR_COUNT ==> IsInt32(target[i])
    requires rx.canId == StateId(side, Position) && rx.len == 64
    requires Int32s(rx.data, 0, ACTUATOR_COUNT) == ToWire(target)
    ensures Classify(side, rx).Decoded? && Decode(side, rx, frames).position == target
  {
    var back := ToSdk(ToWire(target));
    forall i | 0 <= i < ACTUATOR_COUNT
      ensures back[i] == target[i]
    {
      OffsetsCancel(target[i]);
    }
    assert back == target;
  }

  lemma OffsetsCancel(x: int)
    requires IsInt32(x)
    ensures Signed32(Signed32(x + HOME_OFFSET_COUNT) - HOME_OFFSET_COUNT) == x
  {}

  // The drive itself sees the intended count exactly when the offset does not overflow: a target
  // that set_command accepts can still be sent as a large negative count
  lemma WireIsExact(target: int)
    requires IsInt32(target)
    ensures Signed32(target + HOME_OFFSET_COUNT) == target + HOME_OFFSET_COUNT <==> target <= INT32_MAX - HOME_OFFSET_COUNT
    ensures target > INT32_MAX - HOME_OFFSET_COUNT ==> Signed32(target + HOME_OFFSET_COUNT) < 0
    ensures ToWire([target])[0] == target + 1000 <==> target <= INT32_MAX - 1000
    ensures ToSdk([target])[0] == target - 1000 <==> target >= INT32_MIN + 1000
  {}

  lemma LargestTargetOverflows()
    ensures Signed32(INT32_MAX + HOME_OFFSET_COUNT) == INT32_MIN + HOME_OFFSET_COUNT - 1
  {}
}
