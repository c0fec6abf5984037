/**
 Lossy UTF-8 decoding as `String::from_utf8_lossy` does it: each well-formed
 sequence becomes its character, each maximal ill-formed prefix one U+FFFD.
 The result of interest is exactly when decoding commutes with cutting the bytes.
 */
module Utf8 {

  type Byte = b: int | 0 <= b < 256

  const REPLACEMENT: char := '\U{FFFD}'

  /** Sequence length announced by a first byte; 0 if it can start none. */
  function Width(first: Byte): nat {
    if first < 0x80 then 1
    else if 0xC2 <= first <= 0xDF then 2
    else if 0xE0 <= first <= 0xEF then 3
    else if 0xF0 <= first <= 0xF4 then 4
    else 0
  }

  /** Whether a byte may stand at position `pos` of a sequence with this first byte. */
  predicate Accepts(first: Byte, pos: nat, b: Byte) {
    if pos == 1 then
      (if first == 0xE0 then 0xA0 else if first == 0xF0 then 0x90 else 0x80) <= b
      <= (if first == 0xED then 0x9F else if first == 0xF4 then 0x8F else 0xBF)
    else 0x80 <= b <= 0xBF
  }

  /** How many leading bytes belong to the first unit, given that `k` of them do. */
  function Matched(bytes: seq<Byte>, k: nat): (m: nat)
    requires 0 < k <= |bytes|
    ensures k <= m <= |bytes|
    ensures m <= k || m <= Width(bytes[0])
    decreases |bytes| - k
  {
    if k < Width(bytes[0]) && k < |bytes| && Accepts(bytes[0], k, bytes[k]) then Matched(bytes, k + 1) else k
  }

  function Unit(bytes: seq<Byte>): (n: nat)
    requires bytes != []
    ensures 0 < n <= |bytes|
  {
    Matched(bytes, 1)
  }

  lemma {:induction false} MatchedAccepts(bytes: seq<Byte>, k: nat, i: nat)
    requires 0 < k <= i < |bytes| && i < Matched(bytes, k)
    ensures i < Width(bytes[0]) && Accepts(bytes[0], i, bytes[i])
    decreases |bytes| - k
  {
    if k < i { MatchedAccepts(bytes, k + 1, i); }
  }

  /** The character of the first unit. */
  function First(bytes: seq<Byte>): char
    requires bytes != []
  {
    var n := Unit(bytes);
    if n != Width(bytes[0]) then REPLACEMENT
    else if n == 1 then bytes[0] as char
    else
      MatchedAccepts(bytes, 1, 1);
      var b0: int, b1: int := bytes[0], bytes[1] - 0x80;
      if n == 2 then ((b0 - 0xC0) * 0x40 + b1) as char
      else
        MatchedAccepts(bytes, 1, 2);
        var b2: int := bytes[2] - 0x80;
        if n == 3 then ((b0 - 0xE0) * 0x1000 + b1 * 0x40 + b2) as char
        else
          MatchedAccepts(bytes, 1, 3);
          var b3: int := bytes[3] - 0x80;
          ((b0 - 0xF0) * 0x40000 + b1 * 0x1000 + b2 * 0x40 + b3) as char
  }

  function Decode(bytes: seq<Byte>): string {
    if bytes == [] then "" else [First(bytes)] + Decode(bytes[Unit(bytes)..])
  }

  // ---------------------------------------------------------------------------
  // Round trip
  // ---------------------------------------------------------------------------

  /** The UTF-8 encoding of a character. */
  function Encode(c: char): seq<Byte> {
    var n := c as int;
    if n < 0x80 then [n]
    else if n < 0x800 then [0xC0 + n / 0x40, 0x80 + n % 0x40]
    else if n < 0x10000 then [0xE0 + n / 0x1000, 0x80 + n / 0x40 % 0x40, 0x80 + n % 0x40]
    else [0xF0 + n / 0x40000, 0x80 + n / 0x1000 % 0x40, 0x80 + n / 0x40 % 0x40, 0x80 + n % 0x40]
  }

  function EncodeAll(text: string): seq<Byte> {
    if text == "" then [] else Encode(text[0]) + EncodeAll(text[1..])
  }

  /** The sequence starts with `w` bytes that form one unit of that width. */
  predicate WellFormed(bytes: seq<Byte>, w: nat) {
    && 0 < w <= |bytes| && Width(bytes[0]) == w
    && forall i :: 1 <= i < w ==> Accepts(bytes[0], i, bytes[i])
  }

  lemma {:induction false} WellFormedMatches(bytes: seq<Byte>, w: nat, k: nat)
    requires WellFormed(bytes, w) && 0 < k <= w
    ensures Matched(bytes, k) == w
    decreases w - k
  {
    if k < w {
      assert Accepts(bytes[0], k, bytes[k]);
      WellFormedMatches(bytes, w, k + 1);
    }
  }

  lemma EncodedHead(c: char)
    ensures Width(Encode(c)[0]) == |Encode(c)|
  {
  }

  /** Splitting a number into its base-64 digits loses nothing. */
  lemma Digits(n: nat)
    ensures n == n / 0x40 * 0x40 + n % 0x40
    ensures n / 0x40 == n / 0x1000 * 0x40 + n / 0x40 % 0x40
    ensures n / 0x1000 == n / 0x40000 * 0x40 + n / 0x1000 % 0x40
  {
  }

  lemma SecondOfThree(n: nat)
    requires 0x800 <= n < 0x10000 && !(0xD800 <= n < 0xE000)
    ensures Accepts(0xE0 + n / 0x1000, 1, 0x80 + n / 0x40 % 0x40)
  {
    var a, b, c := n / 0x1000, n / 0x40 % 0x40, n % 0x40;
    Digits(n);
    assert n == a * 0x1000 + b * 0x40 + c;
  }

  lemma SecondOfFour(n: nat)
    requires 0x10000 <= n < 0x11_0000
    ensures Accepts(0xF0 + n / 0x40000, 1, 0x80 + n / 0x1000 % 0x40)
  {
    var a, b, rest := n / 0x40000, n / 0x1000 % 0x40, n % 0x1000;
    Digits(n);
    assert n == a * 0x40000 + b * 0x1000 + rest;
  }

  lemma EncodedSecond(c: char)
    requires |Encode(c)| > 1
    ensures Accepts(Encode(c)[0], 1, Encode(c)[1])
  {
    var n := c as int;
    assert n < 0xD800 || 0xE000 <= n < 0x11_0000;
    if n >= 0x10000 { SecondOfFour(n); } else if n >= 0x800 { SecondOfThree(n); }
  }

  lemma EncodedLater(c: char, i: nat)
    requires 1 < i < |Encode(c)|
    ensures Accepts(Encode(c)[0], i, Encode(c)[i])
  {
  }

  lemma EncodedIsWellFormed(c: char)
    ensures WellFormed(Encode(c), |Encode(c)|)
  {
    EncodedHead(c);
    forall i | 1 <= i < |Encode(c)| ensures Accepts(Encode(c)[0], i, Encode(c)[i]) {
      if i == 1 { EncodedSecond(c); } else { EncodedLater(c, i); }
    }
  }

  lemma FirstOfEncodedAlone(c: char)
    ensures Unit(Encode(c)) == |Encode(c)| && First(Encode(c)) == c
  {
    EncodedIsWellFormed(c);
    WellFormedMatches(Encode(c), |Encode(c)|, 1);
    Digits(c as int);
  }

  /** A character's encoding is one unit and decodes to it, whatever follows. */
  lemma FirstOfEncoded(c: char, rest: seq<Byte>)
    ensures Unit(Encode(c) + rest) == |Encode(c)| && First(Encode(c) + rest) == c
  {
    var code := Encode(c);
    FirstOfEncodedAlone(c);
    EncodedIsWellFormed(c);
    assert WellFormed(code + rest, |code|);
    WellFormedMatches(code + rest, |code|, 1);
    FirstInFront(code, rest);
  }

  /** Exactly the encodings of characters are well-formed units: overlong forms, surrogates and
      numbers past U+10FFFF are not. */
  lemma WellFormedIsEncoded(bytes: seq<Byte>)
    requires bytes != [] && WellFormed(bytes, |bytes|)
    ensures Encode(First(bytes)) == bytes
  {
    WellFormedMatches(bytes, |bytes|, 1);
    var b0 := bytes[0];
    assert |bytes| > 1 ==> Accepts(b0, 1, bytes[1]);
    assert |bytes| > 2 ==> Accepts(b0, 2, bytes[2]);
    assert |bytes| > 3 ==> Accepts(b0, 3, bytes[3]);
    if |bytes| == 2 {
      TwoDigits(b0 - 0xC0, bytes[1] - 0x80);
    } else if |bytes| == 3 {
      ThreeDigits(b0 - 0xE0, bytes[1] - 0x80, bytes[2] - 0x80);
    } else if |bytes| == 4 {
      FourDigits(b0 - 0xF0, bytes[1] - 0x80, bytes[2] - 0x80, bytes[3] - 0x80);
    }
  }

  lemma TwoDigits(a: nat, b: nat)
    requires b < 0x40
    ensures (a * 0x40 + b) / 0x40 == a && (a * 0x40 + b) % 0x40 == b
  {
  }

  lemma ThreeDigits(a: nat, b: nat, c: nat)
    requires b < 0x40 && c < 0x40
    ensures var n := a * 0x1000 + b * 0x40 + c;
      n / 0x1000 == a && n / 0x40 % 0x40 == b && n % 0x40 == c
  {
    assert a * 0x1000 + b * 0x40 + c == (a * 0x40 + b) * 0x40 + c;
    TwoDigits(a * 0x40 + b, c);
  }

  lemma FourDigits(a: nat, b: nat, c: nat, d: nat)
    requires b < 0x40 && c < 0x40 && d < 0x40
    ensures var n := a * 0x40000 + b * 0x1000 + c * 0x40 + d;
      n / 0x40000 == a && n / 0x1000 % 0x40 == b && n / 0x40 % 0x40 == c && n % 0x40 == d
  {
    assert a * 0x40000 + b * 0x1000 + c * 0x40 + d == (a * 0x1000 + b * 0x40 + c) * 0x40 + d;
    TwoDigits(a * 0x1000 + b * 0x40 + c, d);
    ThreeDigits(a, b, c);
  }

  /** The least byte that may follow at position `pos`. */
  function Lowest(first: Byte, pos: nat): Byte {
    if pos == 1 && first == 0xE0 then 0xA0 else if pos == 1 && first == 0xF0 then 0x90 else 0x80
  }

  /** A front that matched so far, completed to a whole sequence. */
  function Completed(front: seq<Byte>): (r: seq<Byte>)
    requires 0 < |front| <= Width(front[0])
    ensures front <= r && |r| == Width(front[0])
    decreases Width(front[0]) - |front|
  {
    if |front| == Width(front[0]) then front else Completed(front + [Lowest(front[0], |front|)])
  }

  ghost predicate AllAccepted(front: seq<Byte>) {
    front != [] && forall i :: 1 <= i < |front| ==> Accepts(front[0], i, front[i])
  }

  lemma {:induction false} CompletedIsWellFormed(front: seq<Byte>)
    requires 0 < |front| <= Width(front[0]) && AllAccepted(front)
    ensures WellFormed(Completed(front), Width(front[0])) && |Completed(front)| == Width(front[0])
    decreases Width(front[0]) - |front|
  {
    if |front| < Width(front[0]) {
      var more := front + [Lowest(front[0], |front|)];
      forall i | 1 <= i < |more| ensures Accepts(more[0], i, more[i]) {
        if i < |front| { assert more[i] == front[i]; }
      }
      CompletedIsWellFormed(more);
    }
  }

  /** The first unit is a front of some character's encoding, unless its first byte can start none. */
  lemma UnitStartsCharacter(bytes: seq<Byte>) returns (c: char)
    requires bytes != [] && Width(bytes[0]) > 0
    ensures bytes[..Unit(bytes)] <= Encode(c)
  {
    var front := bytes[..Unit(bytes)];
    forall i | 1 <= i < |front| ensures Accepts(front[0], i, front[i]) { MatchedAccepts(bytes, 1, i); }
    CompletedIsWellFormed(front);
    WellFormedIsEncoded(Completed(front));
    c := First(Completed(front));
  }

  lemma {:induction false} MatchedReaches(bytes: seq<Byte>, k: nat, n: nat)
    requires 0 < k <= n <= |bytes| && n <= Width(bytes[0])
    requires forall i :: k <= i < n ==> Accepts(bytes[0], i, bytes[i])
    ensures Matched(bytes, k) >= n
    decreases n - k
  {
    if k < n { MatchedReaches(bytes, k + 1, n); }
  }

  /** And it is the longest such front: no longer one starts any character. */
  lemma UnitIsLongest(bytes: seq<Byte>, n: nat, c: char)
    requires 0 < n <= |bytes| && bytes[..n] <= Encode(c)
    ensures n <= Unit(bytes)
  {
    var code := Encode(c);
    EncodedIsWellFormed(c);
    assert bytes[0] == bytes[..n][0] == code[0];
    forall i | 1 <= i < n ensures Accepts(bytes[0], i, bytes[i]) { assert bytes[i] == bytes[..n][i] == code[i]; }
    MatchedReaches(bytes, 1, n);
  }

  /** A first unit that is no whole encoding decodes to one U+FFFD. */
  lemma IllFormedIsReplaced(bytes: seq<Byte>)
    requires bytes != [] && forall c: char :: bytes[..Unit(bytes)] != Encode(c)
    ensures First(bytes) == '\U{FFFD}'
  {
    var front := bytes[..Unit(bytes)];
    if Unit(bytes) == Width(bytes[0]) {
      forall i | 1 <= i < |front| ensures Accepts(front[0], i, front[i]) { MatchedAccepts(bytes, 1, i); }
      assert WellFormed(front, |front|);
      WellFormedIsEncoded(front);
    }
  }

  /** Decoding inverts encoding. */
  lemma {:induction false} DecodeEncode(text: string)
    ensures Decode(EncodeAll(text)) == text
  {
    if text != "" {
      var head, rest := Encode(text[0]), EncodeAll(text[1..]);
      FirstOfEncoded(text[0], rest);
      assert (head + rest)[|head|..] == rest;
      DecodeEncode(text[1..]);
    }
  }

  // ---------------------------------------------------------------------------
  // Cutting
  // ---------------------------------------------------------------------------

  /** The cut between `a` and `b` falls inside a unit of their concatenation. */
  predicate Cuts(a: seq<Byte>, b: seq<Byte>) {
    if a == [] then false
    else
      var n := Unit(a + b);
      if n > |a| then true else Cuts(a[n..], b)
  }

  /** Bytes after the unit do not influence it, unless the unit reaches the end. */
  lemma {:induction false} MatchedInFront(a: seq<Byte>, b: seq<Byte>, k: nat)
    requires 0 < k <= |a|
    ensures Matched(a, k) == if Matched(a + b, k) <= |a| then Matched(a + b, k) else |a|
    decreases |a| - k
  {
    if k < |a| { MatchedInFront(a, b, k + 1); }
  }

  /** A unit that ends inside `a` is read the same from `a` alone. */
  lemma FirstInFront(a: seq<Byte>, b: seq<Byte>)
    requires a != [] && Unit(a + b) <= |a|
    ensures Unit(a) == Unit(a + b) && First(a) == First(a + b)
  {
    MatchedInFront(a, b, 1);
    var n := Unit(a);
    forall i | 0 <= i < n ensures a[i] == (a + b)[i] { }
  }

  /** Stray continuation bytes decode to one replacement character each. */
  lemma {:induction false} StrayContinuations(bytes: seq<Byte>, n: nat)
    requires n <= |bytes|
    requires forall i :: 0 <= i < n ==> 0x80 <= bytes[i] <= 0xBF
    ensures |Decode(bytes)| == n + |Decode(bytes[n..])|
    decreases n
  {
    if n > 0 {
      assert Width(bytes[0]) == 0;
      assert Unit(bytes) == 1;
      StrayContinuations(bytes[1..], n - 1);
      assert bytes[1..][n - 1..] == bytes[n..];
    } else {
      assert bytes[n..] == bytes;
    }
  }

  /** The part of a unit that lies behind the cut consists of continuation bytes. */
  lemma OverhangIsContinuation(a: seq<Byte>, b: seq<Byte>, i: nat)
    requires a != [] && |a| + i < Unit(a + b)
    ensures i < |b| && 0x80 <= b[i] <= 0xBF
  {
    MatchedAccepts(a + b, 1, |a| + i);
    assert (a + b)[|a| + i] == b[i];
  }

  /** All of `a` is one unit when its first unit reaches over the cut. */
  lemma FrontIsOneUnit(a: seq<Byte>, b: seq<Byte>)
    requires a != [] && Unit(a + b) > |a|
    ensures |Decode(a)| == 1
  {
    MatchedInFront(a, b, 1);
    assert a[Unit(a)..] == [];
  }

  lemma AfterSpanningUnit(a: seq<Byte>, b: seq<Byte>)
    requires a != [] && Unit(a + b) > |a|
    ensures |Decode(a + b)| == 1 + |Decode(b[Unit(a + b) - |a|..])|
  {
    assert (a + b)[Unit(a + b)..] == b[Unit(a + b) - |a|..];
  }

  /** When a unit reaches over the cut, decoding the pieces gives more characters than decoding the whole. */
  lemma SpanningUnit(a: seq<Byte>, b: seq<Byte>)
    requires a != [] && Unit(a + b) > |a|
    ensures |Decode(a)| + |Decode(b)| > |Decode(a + b)|
  {
    var over := Unit(a + b) - |a|;
    forall i: nat | i < over ensures 0x80 <= b[i] <= 0xBF { OverhangIsContinuation(a, b, i); }
    FrontIsOneUnit(a, b);
    StrayContinuations(b, over);
    AfterSpanningUnit(a, b);
  }

  /** A first unit that ends in front of the cut is decoded first on both sides. */
  lemma UnitInFront(a: seq<Byte>, b: seq<Byte>)
    requires a != [] && Unit(a + b) <= |a|
    ensures var n := Unit(a + b);
      && Decode(a) == [First(a)] + Decode(a[n..])
      && Decode(a + b) == [First(a)] + Decode(a[n..] + b)
  {
    FirstInFront(a, b);
    assert (a + b)[Unit(a + b)..] == a[Unit(a + b)..] + b;
  }

  lemma FrontOfPieces(head: char, a: string, b: string, whole: string)
    requires whole == a + b
    ensures [head] + whole == ([head] + a) + b
  {
  }

  /** If the cut is between units, decoding the pieces gives the decoded whole. */
  lemma {:induction false} DecodePieces(a: seq<Byte>, b: seq<Byte>)
    requires !Cuts(a, b)
    ensures Decode(a + b) == Decode(a) + Decode(b)
    decreases |a|
  {
    if a == [] {
      assert a + b == b;
    } else {
      var n := Unit(a + b);
      UnitInFront(a, b);
      DecodePieces(a[n..], b);
      FrontOfPieces(First(a), Decode(a[n..]), Decode(b), Decode(a[n..] + b));
    }
  }

  /** If the cut falls inside a unit, the pieces decode to too many characters. */
  lemma {:induction false} CutAddsCharacters(a: seq<Byte>, b: seq<Byte>)
    requires Cuts(a, b)
    ensures |Decode(a)| + |Decode(b)| > |Decode(a + b)|
    decreases |a|
  {
    var n := Unit(a + b);
    if n > |a| {
      SpanningUnit(a, b);
    } else {
      UnitInFront(a, b);
      CutAddsCharacters(a[n..], b);
    }
  }

  /** Decoding commutes with a cut exactly when the cut does not fall inside a unit. */
  lemma DecodeCommutesIff(a: seq<Byte>, b: seq<Byte>)
    ensures Decode(a + b) == Decode(a) + Decode(b) <==> !Cuts(a, b)
  {
    if Cuts(a, b) { CutAddsCharacters(a, b); } else { DecodePieces(a, b); }
  }

  function Join(chunks: seq<seq<Byte>>): seq<Byte> {
    if chunks == [] then [] else chunks[0] + Join(chunks[1..])
  }

  function DecodeEach(chunks: seq<seq<Byte>>): seq<string> {
    if chunks == [] then [] else [Decode(chunks[0])] + DecodeEach(chunks[1..])
  }

  /** No chunk boundary falls inside a unit. */
  predicate CutsNone(chunks: seq<seq<Byte>>) {
    chunks == [] || (!Cuts(chunks[0], Join(chunks[1..])) && CutsNone(chunks[1..]))
  }
}
