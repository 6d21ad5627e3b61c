/** Text as bytes: what of a file of bytes is text, and what a cut in the middle leaves. */
module Utf8 {
  import opened Core

  // ---- Writing ----

  function Tail(n: nat): byte {
    (0x80 + n % 64) as byte
  }

  function EncodeChar(c: char): (r: seq<byte>)
    ensures 1 <= |r| <= 4
  {
    var n := c as int;
    if n < 0x80 then [n as byte]
    else if n < 0x800 then [(0xC0 + n / 64) as byte, Tail(n)]
    else if n < 0x1_0000 then [(0xE0 + n / 4096) as byte, Tail(n / 64), Tail(n)]
    else [(0xF0 + n / 26_2144) as byte, Tail(n / 4096), Tail(n / 64), Tail(n)]
  }

  function Encode(s: string): seq<byte> {
    if s == [] then [] else EncodeChar(s[0]) + Encode(s[1..])
  }

  // ---- Reading ----

  /** How long a character that starts with `b` is; none starts with a byte given 0. */
  function Length(b: byte): nat {
    if b < 0x80 then 1 else if b < 0xC0 then 0 else if b < 0xE0 then 2 else if b < 0xF0 then 3 else if b < 0xF8 then 4 else 0
  }

  function Low(b: byte): nat {
    b as nat % 64
  }

  function Value(b: seq<byte>): nat
    requires b != [] && 1 <= Length(b[0]) <= |b|
  {
    match Length(b[0])
    case 1 => b[0] as nat
    case 2 => (b[0] as nat - 0xC0) * 64 + Low(b[1])
    case 3 => (b[0] as nat - 0xE0) * 4096 + Low(b[1]) * 64 + Low(b[2])
    case _ => (b[0] as nat - 0xF0) * 26_2144 + Low(b[1]) * 4096 + Low(b[2]) * 64 + Low(b[3])
  }

  predicate Scalar(n: nat) {
    n < 0xD800 || 0xE000 <= n < 0x11_0000
  }

  /** The character `b` starts with, written in no other way than it should be. */
  function DecodeChar(b: seq<byte>): (r: Option<char>)
    ensures r.Some? ==> EncodeChar(r.value) <= b
  {
    if b == [] || Length(b[0]) == 0 || Length(b[0]) > |b| || !Scalar(Value(b)) then None
    else
      var c := Value(b) as char;
      if EncodeChar(c) <= b then Some(c) else None
  }

  /** `s`, and then what else was read, if it could be. */
  function Then(s: string, rest: Option<string>): Option<string> {
    match rest
    case None => None
    case Some(t) => Some(s + t)
  }

  function Decode(b: seq<byte>): Option<string>
    decreases |b|
  {
    if b == [] then Some([])
    else
      match DecodeChar(b)
      case None => None
      case Some(c) => Then([c], Decode(b[|EncodeChar(c)|..]))
  }

  predicate IsText(b: seq<byte>) {
    Decode(b).Some?
  }

  // ---- Round trip ----

  predicate Continues(b: byte) {
    0x80 <= b < 0xC0
  }

  lemma {:induction false} CharShape(c: char)
    ensures var e := EncodeChar(c); Length(e[0]) == |e| && !Continues(e[0])
    ensures var e := EncodeChar(c); forall i | 1 <= i < |e| :: Continues(e[i])
  {}

  lemma {:induction false} CharBack(c: char, rest: seq<byte>)
    ensures DecodeChar(EncodeChar(c) + rest) == Some(c)
  {
    var n, b := c as int, EncodeChar(c) + rest;
    CharShape(c);
    assert b[..|EncodeChar(c)|] == EncodeChar(c);
    assert Value(b) == n by { ValueOf(c, rest); }
  }

  lemma {:induction false} ValueOf(c: char, rest: seq<byte>)
    ensures var b := EncodeChar(c) + rest; Length(b[0]) == |EncodeChar(c)| && Value(b) == c as nat
  {
    var n, e := c as int, EncodeChar(c);
    var b := e + rest;
    assert b[..|e|] == e && forall i | 0 <= i < |e| :: b[i] == e[i];
    LowTail(n);
    LowTail(n / 64);
    LowTail(n / 4096);
    SixBits(n);
    CharShape(c);
    hide Tail, Low;
  }

  lemma {:induction false} LowTail(n: nat)
    ensures Low(Tail(n)) == n % 64
  {}

  lemma {:induction false} SixBits(n: nat)
    ensures n == n / 64 * 64 + n % 64
    ensures n == n / 4096 * 4096 + n / 64 % 64 * 64 + n % 64
    ensures n == n / 26_2144 * 26_2144 + n / 4096 % 64 * 4096 + n / 64 % 64 * 64 + n % 64
  {
    OneShift(n);
    OneShift(n / 64);
    OneShift(n / 4096);
    TwoShifts(n, 64);
    TwoShifts(n, 4096);
  }

  lemma {:induction false} OneShift(n: nat)
    ensures n == n / 64 * 64 + n % 64
  {}

  lemma {:induction false} TwoShifts(n: nat, m: nat)
    requires m == 64 || m == 4096
    ensures n / m / 64 == if m == 64 then n / 4096 else n / 26_2144
  {}

  lemma {:induction false} DecodeNext(c: char, rest: seq<byte>)
    ensures Decode(EncodeChar(c) + rest) == Then([c], Decode(rest))
  {
    CharBack(c, rest);
    assert |EncodeChar(c)| >= 1;
    hide EncodeChar, DecodeChar;
    assert (EncodeChar(c) + rest)[|EncodeChar(c)|..] == rest;
  }

  /** What is read after some text. */
  lemma {:induction false} DecodeAfter(s: string, rest: seq<byte>)
    ensures Decode(Encode(s) + rest) == Then(s, Decode(rest))
    decreases |s|
  {
    hide EncodeChar, Decode;
    if s == [] {
      assert Encode(s) + rest == rest;
      assert forall t: string :: s + t == t;
    } else {
      var c := s[0];
      assert Encode(s) + rest == EncodeChar(c) + (Encode(s[1..]) + rest);
      DecodeNext(c, Encode(s[1..]) + rest);
      DecodeAfter(s[1..], rest);
      assert forall t: string :: [c] + (s[1..] + t) == s + t;
    }
  }

  lemma {:induction false} RoundTrip(s: string)
    ensures Decode(Encode(s)) == Some(s)
  {
    hide Encode;
    DecodeAfter(s, []);
    assert Decode([]) == Some([]);
    assert Encode(s) + [] == Encode(s) && s + [] == s;
  }

  lemma {:induction false} DecodeSound(b: seq<byte>)
    requires IsText(b)
    ensures Encode(Decode(b).value) == b
    decreases |b|
  {
    hide EncodeChar, DecodeChar;
    if b != [] {
      var c := DecodeChar(b).value;
      var e := EncodeChar(c);
      DecodeSound(b[|e|..]);
      assert b == e + b[|e|..];
      var s := [c] + Decode(b[|e|..]).value;
      assert s[1..] == Decode(b[|e|..]).value;
    }
  }

  /** A byte that is a character of its own appears nowhere else. */
  lemma {:induction false} PlainByte(s: string, p: char)
    requires p as int < 0x80 && p !in s
    ensures (p as int) as byte !in Encode(s)
  {
    if s != [] {
      assert s[0] in s && forall c | c in s[1..] :: c in s;
      PlainByte(s[1..], p);
      CharShape(s[0]);
      var e := EncodeChar(s[0]);
      assert forall i | 0 <= i < |e| :: e[i] != (p as int) as byte;
    }
  }

  /** The examples of section 7 of RFC 3629, and one character of each length. */
  lemma {:induction false} StandardForms()
    ensures Encode("A\U{2262}\U{0391}.") == [0x41, 0xE2, 0x89, 0xA2, 0xCE, 0x91, 0x2E]
    ensures Encode("\U{D55C}") == [0xED, 0x95, 0x9C] && Encode("\U{65E5}") == [0xE6, 0x97, 0xA5]
    ensures Encode("\U{233B4}") == [0xF0, 0xA3, 0x8E, 0xB4] && Encode("\U{00E9}") == [0xC3, 0xA9]
  {
    assert "A\U{2262}\U{0391}."[1..] == "\U{2262}\U{0391}." && "\U{2262}\U{0391}."[1..] == "\U{0391}.";
    assert "\U{0391}."[1..] == "." && "."[1..] == "";
    assert Encode("") == [];
    assert Encode(".") == [0x2E];
    assert Encode("\U{0391}.") == [0xCE, 0x91, 0x2E];
    assert Encode("\U{2262}\U{0391}.") == [0xE2, 0x89, 0xA2, 0xCE, 0x91, 0x2E];
    OneChar('\U{D55C}');
    OneChar('\U{65E5}');
    OneChar('\U{233B4}');
    OneChar('\U{00E9}');
  }

  lemma {:induction false} OneChar(c: char)
    ensures Encode([c]) == EncodeChar(c)
  {
    assert [c][1..] == [];
  }

  // ---- A cut in the middle ----

  /** A part of written text is some of its characters, and perhaps a part of the next. */
  lemma {:induction false} CutAt(s: string, torn: seq<byte>) returns (n: nat, part: seq<byte>)
    requires torn <= Encode(s)
    ensures n <= |s| && torn == Encode(s[..n]) + part
    ensures part == [] || (n < |s| && part < EncodeChar(s[n]))
    decreases |s|
  {
    hide EncodeChar;
    if s == [] {
      n, part := 0, [];
    } else if |torn| < |EncodeChar(s[0])| {
      n, part := 0, torn;
      assert s[..0] == [] && torn == Encode([]) + torn;
    } else {
      var e := EncodeChar(s[0]);
      assert torn[..|e|] == e && torn == e + torn[|e|..];
      n, part := CutAt(s[1..], torn[|e|..]);
      assert s[..n + 1][1..] == s[1..][..n];
      n := n + 1;
    }
  }

  /** A part of a character is no text, whatever is written after it. */
  lemma {:induction false} PartIsNoText(c: char, part: seq<byte>, s: string)
    requires part < EncodeChar(c) && part != []
    ensures !IsText(part + Encode(s))
  {
    var b := part + Encode(s);
    CharShape(c);
    assert b[0] == EncodeChar(c)[0];
    if s != [] {
      CharShape(s[0]);
      assert b[|part|] == EncodeChar(s[0])[0];
    }
    forall d: char ensures !(EncodeChar(d) <= b) { NotThatChar(d, b, |part|); }
  }

  /** Too short to be a character, or no part of one where one should be. */
  lemma {:induction false} NotThatChar(d: char, b: seq<byte>, n: nat)
    requires b != [] && 0 < n < Length(b[0]) && n <= |b| && (n == |b| || !Continues(b[n]))
    ensures !(EncodeChar(d) <= b)
  {
    CharShape(d);
    hide EncodeChar;
  }

  lemma {:induction false} PartAfter(s: string, part: seq<byte>)
    requires !IsText(part)
    ensures !IsText(Encode(s) + part)
  {
    hide Encode, Decode;
    DecodeAfter(s, part);
  }

  /** Text cut short is text exactly when it was cut between two characters, and what is
      then written after it makes no difference to that. */
  lemma {:induction false} CutShort(s: string, torn: seq<byte>, next: string)
    requires torn <= Encode(s)
    ensures IsText(torn) <==> exists n :: 0 <= n <= |s| && torn == Encode(s[..n])
    ensures IsText(torn) ==> Decode(torn).value <= s
    ensures Decode(torn + Encode(next)) == if IsText(torn) then Some(Decode(torn).value + next) else None
  {
    hide EncodeChar, Decode;
    var n, part := CutAt(s, torn);
    if part == [] {
      assert torn == Encode(s[..n]);
      hide Encode;
      RoundTrip(s[..n]);
      RoundTrip(next);
      DecodeAfter(s[..n], Encode(next));
    } else {
      PartIsNoText(s[n], part, []);
      assert part + Encode([]) == part;
      PartIsNoText(s[n], part, next);
      hide Encode;
      PartAfter(s[..n], part);
      PartAfter(s[..n], part + Encode(next));
      assert torn + Encode(next) == Encode(s[..n]) + (part + Encode(next));
      forall m | 0 <= m <= |s| ensures torn != Encode(s[..m]) { RoundTrip(s[..m]); }
    }
  }
}
