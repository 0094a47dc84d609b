/** Contents of feeds: what a block carries, what it costs, and what can be read out of it. */
module FeedContents {
  import opened Common
  import opened BlockStore

  /** User IDs, content IDs and block hashes are texts that are only compared. */
  datatype Id = Id(text: string)

  const NO_ID: Id := Id("")

  type int64 = x: int | -0x8000_0000_0000_0000 <= x < 0x8000_0000_0000_0000

  /** Subtraction of signed 64-bit integers, with wrap-around. */
  function Minus64(a: int64, b: int64): (d: int64)
    ensures (a - b - d) % 0x1_0000_0000_0000_0000 == 0
  {
    var d := a - b;
    if d >= 0x8000_0000_0000_0000 then d - 0x1_0000_0000_0000_0000
    else if d < -0x8000_0000_0000_0000 then d + 0x1_0000_0000_0000_0000
    else d
  }

  datatype ContentType =
    | Join | Text | Comment | Reaction | Follow | Username | Endorsement | EndorsementRequest | Undo | Dummy
    | Unknown(code: int)

  datatype Metadata = Metadata(
    kind: ContentType,
    contentID: Id,
    feedUserID: Id,
    refContentID: Id,
    timestamp: int64,
    data: Bytes,
    signature: Bytes)

  function Cost(kind: ContentType): nat {
    match kind
    case Text => 5
    case Comment => 2
    case Reaction => 1
    case _ => 0
  }

  /** The user that a follow block follows, and the one that an endorsement block endorses. */
  function TargetUser(m: Metadata): Id
    requires m.kind.Follow? || m.kind.Endorsement?
  {
    Id(Hex(m.data))
  }

  /** The block hash that an undo block refers to. */
  function ReferredHash(m: Metadata): Id
    requires m.kind.Undo?
  {
    Id(Hex(m.data))
  }

  /** A user or a block is named by the bytes of its hash and nothing else. */
  lemma {:induction false} NamedIff(m: Metadata, hash: Bytes)
    ensures m.kind.Follow? || m.kind.Endorsement? ==> (TargetUser(m) == Id(Hex(hash)) <==> m.data == hash)
    ensures m.kind.Undo? ==> (ReferredHash(m) == Id(Hex(hash)) <==> m.data == hash)
  {
    if Hex(m.data) == Hex(hash) {
      HexInjective(m.data, hash);
    }
  }

  predicate IsDigit(b: byte) {
    48 <= b <= 57
  }

  predicate AllDigits(s: Bytes) {
    forall i :: 0 <= i < |s| ==> IsDigit(s[i])
  }

  function DigitsValue(s: Bytes): nat
    requires AllDigits(s)
  {
    if s == [] then 0
    else
      assert IsDigit(s[|s| - 1]);
      var last: int := s[|s| - 1];
      10 * DigitsValue(s[..|s| - 1]) + (last - 48)
  }

  /** A decimal 64-bit integer with an optional sign; None where strconv.Atoi reports an error. */
  function Atoi(s: Bytes): Option<int64> {
    var signed := s != [] && (s[0] == 43 || s[0] == 45);
    var digits := if signed then s[1..] else s;
    if digits == [] || !AllDigits(digits) then None
    else
      var size: int := DigitsValue(digits);
      var v := if signed && s[0] == 45 then -size else size;
      if -0x8000_0000_0000_0000 <= v < 0x8000_0000_0000_0000 then Some(v) else None
  }

  // Decimal numbers.

  /** The decimal digits of a number, without leading zeros. */
  function DigitsOf(n: nat): Bytes {
    if n < 10 then [48 + n] else DigitsOf(n / 10) + [48 + n % 10]
  }

  function Noughts(n: nat): Bytes {
    if n == 0 then [] else Noughts(n - 1) + [48]
  }

  lemma {:induction false} DigitMore(s: Bytes, d: byte)
    requires AllDigits(s) && IsDigit(d)
    ensures AllDigits(s + [d]) && DigitsValue(s + [d]) == 10 * DigitsValue(s) + (d - 48)
  {
    assert (s + [d])[..|s|] == s;
  }

  lemma {:induction false} NoughtsAreZero(n: nat)
    ensures |Noughts(n)| == n && AllDigits(Noughts(n)) && DigitsValue(Noughts(n)) == 0
  {
    if n > 0 {
      NoughtsAreZero(n - 1);
      DigitMore(Noughts(n - 1), 48);
      assert Noughts(n) == Noughts(n - 1) + [48];
      hide Noughts, DigitsValue;
    }
  }

  /** Leading zeros change nothing. */
  lemma {:induction false} ValueOfDigits(zeros: nat, n: nat)
    ensures |DigitsOf(n)| > 0 && AllDigits(Noughts(zeros) + DigitsOf(n))
    ensures DigitsValue(Noughts(zeros) + DigitsOf(n)) == n
  {
    NoughtsAreZero(zeros);
    if n < 10 {
      DigitMore(Noughts(zeros), 48 + n);
    } else {
      ValueOfDigits(zeros, n / 10);
      DigitMore(Noughts(zeros) + DigitsOf(n / 10), 48 + n % 10);
      assert Noughts(zeros) + DigitsOf(n) == (Noughts(zeros) + DigitsOf(n / 10)) + [48 + n % 10];
    }
  }

  lemma {:induction false} SignsRead(digits: Bytes, size: nat)
    requires digits != [] && AllDigits(digits) && DigitsValue(digits) == size
    ensures Atoi(digits) == Atoi([43] + digits) == if size < 0x8000_0000_0000_0000 then Some(size) else None
    ensures var read := Atoi([45] + digits);
            if size <= 0x8000_0000_0000_0000 then read.Some? && read.value + size == 0 else read.None?
  {
    hide DigitsValue;
    assert IsDigit(digits[0]);
    assert ([45] + digits)[1..] == digits && ([43] + digits)[1..] == digits;
  }

  /** Reading gives back every number of 64 bits, with leading zeros and a sign or without, and refuses what is
      out of range. */
  lemma {:induction false} AtoiOfWritten(zeros: nat, n: nat)
    ensures var digits := Noughts(zeros) + DigitsOf(n);
            && Atoi(digits) == Atoi([43] + digits) == (if n < 0x8000_0000_0000_0000 then Some(n) else None)
            && var read := Atoi([45] + digits);
               if n <= 0x8000_0000_0000_0000 then read.Some? && read.value + n == 0 else read.None?
  {
    ValueOfDigits(zeros, n);
    hide DigitsOf, Noughts, DigitsValue, Atoi;
    SignsRead(Noughts(zeros) + DigitsOf(n), n);
  }

  /** Nothing else can be read: a number has digits only, after at most one sign. */
  lemma {:induction false} AtoiRefuses(rest: Bytes)
    requires rest == [] || !AllDigits(rest)
    ensures Atoi([43] + rest) == None && Atoi([45] + rest) == None
    ensures rest == [] || rest[0] !in {43, 45} ==> Atoi(rest) == None
  {
    hide DigitsValue;
    assert ([45] + rest)[1..] == rest && ([43] + rest)[1..] == rest;
  }

  /** The reaction in a reaction block; None when its data is malformed. */
  function ReactionIn(m: Metadata): Option<int64>
    requires m.kind.Reaction?
  {
    Atoi(m.data)
  }
}
