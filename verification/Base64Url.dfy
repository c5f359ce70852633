/** Canonical unpadded Base64URL (python/chat/protocol.py; section 5 of RFC 4648). */
module Base64Url {
  import opened Wrappers

  type Octet = x: nat | x < 256
  type Sextet = x: nat | x < 64

  // ---- The alphabet -----------------------------------------------------------------------------

  function Letter(v: Sextet): char {
    if v < 26 then 'A' + v as char
    else if v < 52 then 'a' + (v - 26) as char
    else if v < 62 then '0' + (v - 52) as char
    else if v == 62 then '-' else '_'
  }

  predicate InAlphabet(c: char) {
    'A' <= c <= 'Z' || 'a' <= c <= 'z' || '0' <= c <= '9' || c == '-' || c == '_'
  }

  function Value(c: char): (v: Sextet)
    requires InAlphabet(c)
  {
    if 'A' <= c <= 'Z' then (c - 'A') as nat
    else if 'a' <= c <= 'z' then (c - 'a') as nat + 26
    else if '0' <= c <= '9' then (c - '0') as nat + 52
    else if c == '-' then 62 else 63
  }

  /** Letters and values correspond one to one. */
  lemma LetterIsInverse(v: Sextet, c: char)
    ensures InAlphabet(Letter(v)) && Value(Letter(v)) == v
    ensures InAlphabet(c) ==> Letter(Value(c)) == c
  {
  }

  predicate Spelled(s: string) {
    forall i :: 0 <= i < |s| ==> InAlphabet(s[i])
  }

  function Spell(vs: seq<Sextet>): string {
    seq(|vs|, i requires 0 <= i < |vs| => Letter(vs[i]))
  }

  function Values(s: string): seq<Sextet>
    requires Spelled(s)
  {
    seq(|s|, i requires 0 <= i < |s| => Value(s[i]))
  }

  lemma SpellIsInverse(vs: seq<Sextet>, s: string)
    ensures Spelled(Spell(vs)) && Values(Spell(vs)) == vs
    ensures Spelled(s) ==> Spell(Values(s)) == s
  {
    forall i | 0 <= i < |vs|
      ensures InAlphabet(Spell(vs)[i]) && Value(Spell(vs)[i]) == vs[i]
    {
      LetterIsInverse(vs[i], 'A');
    }
    if Spelled(s) {
      forall i | 0 <= i < |s| ensures Spell(Values(s))[i] == s[i] { LetterIsInverse(0, s[i]); }
    }
  }

  // ---- Regrouping bits ----------------------------------------------------------------------------
  // The 24 bits of three octets x, y, z as four groups of six, and back.

  function First(x: Octet): Sextet { x / 4 }

  function Second(x: Octet, y: Octet): Sextet { x % 4 * 16 + y / 16 }

  function Third(y: Octet, z: Octet): Sextet { y % 16 * 4 + z / 64 }

  function Fourth(z: Octet): Sextet { z % 64 }

  function High(p: Sextet, q: Sextet): Octet { p * 4 + q / 16 }

  function Middle(q: Sextet, r: Sextet): Octet { q % 16 * 16 + r / 4 }

  function Low(r: Sextet, t: Sextet): Octet { r % 4 * 64 + t }

  lemma Groups(x: Octet, y: Octet, z: Octet)
    ensures High(First(x), Second(x, y)) == x
    ensures Middle(Second(x, y), Third(y, z)) == y
    ensures Low(Third(y, z), Fourth(z)) == z
  {
  }

  lemma Octets(p: Sextet, q: Sextet, r: Sextet, t: Sextet)
    ensures First(High(p, q)) == p
    ensures Second(High(p, q), Middle(q, r)) == q
    ensures Third(Middle(q, r), Low(r, t)) == r
    ensures Fourth(Low(r, t)) == t
    ensures Second(High(p, q), 0) == q - q % 16
    ensures Third(Middle(q, r), 0) == r - r % 4
  {
  }

  /** Three octets make four groups; one or two octets at the end make two or three, padded with zero bits. */
  function Grouped(b: seq<Octet>): seq<Sextet> {
    if b == [] then []
    else if |b| == 1 then [First(b[0]), Second(b[0], 0)]
    else if |b| == 2 then [First(b[0]), Second(b[0], b[1]), Third(b[1], 0)]
    else [First(b[0]), Second(b[0], b[1]), Third(b[1], b[2]), Fourth(b[2])] + Grouped(b[3..])
  }

  /** What the library's decoder makes of the groups: it ignores left-over bits, and a single left-over group
      is an error. */
  function Ungrouped(v: seq<Sextet>): Option<seq<Octet>> {
    if v == [] then Some([])
    else if |v| == 1 then None
    else if |v| == 2 then Some([High(v[0], v[1])])
    else if |v| == 3 then Some([High(v[0], v[1]), Middle(v[1], v[2])])
    else
      match Ungrouped(v[4..])
      case None => None
      case Some(rest) => Some([High(v[0], v[1]), Middle(v[1], v[2]), Low(v[2], v[3])] + rest)
  }

  function Encode(b: seq<Octet>): string {
    Spell(Grouped(b))
  }

  /** The longest text that is looked at for at most `maximum` octets. */
  function Gate(maximum: nat): nat {
    (maximum * 8 + 5) / 6
  }

  function Decode(s: string, minimum: nat, maximum: nat): (r: Option<seq<Octet>>)
    ensures r.Some? ==> minimum <= |r.value| <= maximum
  {
    if |s| > Gate(maximum) || !Spelled(s) then None
    else
      match Ungrouped(Values(s))
      case None => None
      case Some(b) => if minimum <= |b| <= maximum && Encode(b) == s then Some(b) else None
  }

  // ---- Decoding what was encoded ------------------------------------------------------------------

  lemma {:induction false} GroupedLength(b: seq<Octet>)
    ensures |Grouped(b)| == Gate(|b|)
  {
    if |b| >= 3 { GroupedLength(b[3..]); }
  }

  /** The gate is exactly the length of the longest legal text. */
  lemma EncodedLength(b: seq<Octet>, maximum: nat)
    ensures |Encode(b)| == Gate(|b|)
    ensures |b| <= maximum ==> |Encode(b)| <= Gate(maximum)
  {
    GroupedLength(b);
  }

  lemma UngroupStep(p: Sextet, q: Sextet, r: Sextet, t: Sextet, rest: seq<Sextet>, tail: seq<Octet>)
    requires Ungrouped(rest) == Some(tail)
    ensures Ungrouped([p, q, r, t] + rest) == Some([High(p, q), Middle(q, r), Low(r, t)] + tail)
  {
    assert ([p, q, r, t] + rest)[4..] == rest;
  }

  lemma UngroupPair(p: Sextet, q: Sextet)
    ensures Ungrouped([p, q]) == Some([High(p, q)])
  {
  }

  lemma GroupOne(x: Octet, p: Sextet, q: Sextet)
    requires p == First(x) && q == Second(x, 0)
    ensures Grouped([x]) == [p, q]
  {
  }

  lemma UngroupTwo(x: Octet)
    ensures Ungrouped(Grouped([x])) == Some([x])
  {
    var p, q := First(x), Second(x, 0);
    Groups(x, 0, 0);
    UngroupPair(p, q);
    GroupOne(x, p, q);
  }

  lemma UngroupThree(x: Octet, y: Octet)
    ensures Ungrouped(Grouped([x, y])) == Some([x, y])
  {
    Groups(x, y, 0);
    assert Grouped([x, y]) == [First(x), Second(x, y), Third(y, 0)];
  }

  lemma {:induction false} UngroupedGrouped(b: seq<Octet>)
    ensures Ungrouped(Grouped(b)) == Some(b)
  {
    if |b| >= 3 {
      var x, y, z := b[0], b[1], b[2];
      UngroupedGrouped(b[3..]);
      UngroupStep(First(x), Second(x, y), Third(y, z), Fourth(z), Grouped(b[3..]), b[3..]);
      Groups(x, y, z);
      assert b == [x, y, z] + b[3..];
    } else if |b| == 2 {
      assert b == [b[0], b[1]];
      UngroupThree(b[0], b[1]);
    } else if |b| == 1 {
      assert b == [b[0]];
      UngroupTwo(b[0]);
    }
  }

  /** Encoding and decoding are inverse between the octet strings within bounds and the texts accepted for
      them: a text decodes to `b` exactly when it is the encoding of `b`. */
  lemma DecodeIsInverse(s: string, b: seq<Octet>, minimum: nat, maximum: nat)
    ensures Decode(s, minimum, maximum) == Some(b) <==> s == Encode(b) && minimum <= |b| <= maximum
  {
    if s == Encode(b) && minimum <= |b| <= maximum {
      SpellIsInverse(Grouped(b), s);
      UngroupedGrouped(b);
      EncodedLength(b, maximum);
    }
  }

  // ---- Which texts are accepted -------------------------------------------------------------------

  /** No single left-over group, and no left-over bit set. */
  predicate Tidy(v: seq<Sextet>) {
    && |v| % 4 != 1
    && (|v| % 4 == 2 ==> v[|v| - 1] % 16 == 0)
    && (|v| % 4 == 3 ==> v[|v| - 1] % 4 == 0)
  }

  lemma FourLess(n: nat)
    requires n >= 4
    ensures n % 4 == (n - 4) % 4 && n * 3 / 4 == 3 + (n - 4) * 3 / 4
  {
  }

  lemma {:induction false} UngroupedLength(v: seq<Sextet>)
    ensures Ungrouped(v) == None <==> |v| % 4 == 1
    ensures Ungrouped(v).Some? ==> |Ungrouped(v).value| == |v| * 3 / 4
  {
    if |v| >= 4 {
      UngroupedLength(v[4..]);
      FourLess(|v|);
    }
  }

  lemma RegroupFour(v: seq<Sextet>, rest: seq<Octet>)
    requires |v| >= 4 && Ungrouped(v[4..]) == Some(rest)
    ensures Ungrouped(v).Some? && Grouped(Ungrouped(v).value) == v[..4] + Grouped(rest)
  {
    var b := Ungrouped(v).value;
    Octets(v[0], v[1], v[2], v[3]);
    assert b[3..] == rest;
  }

  lemma TidyTwo(p: Sextet, q: Sextet)
    ensures Grouped([High(p, q)]) == [p, q] <==> q % 16 == 0
  {
    Octets(p, q, 0, 0);
    assert Grouped([High(p, q)]) == [First(High(p, q)), Second(High(p, q), 0)];
    PairsEqual(p, First(High(p, q)), q, Second(High(p, q), 0));
  }

  lemma PairsEqual(a: Sextet, b: Sextet, c: Sextet, d: Sextet)
    ensures [b, d] == [a, c] <==> a == b && c == d
  {
    assert [b, d][0] == b && [b, d][1] == d && [a, c][0] == a && [a, c][1] == c;
  }

  lemma TriplesEqual(a: Sextet, b: Sextet, c: Sextet, d: Sextet, e: Sextet, f: Sextet)
    ensures [b, d, f] == [a, c, e] <==> a == b && c == d && e == f
  {
    assert [b, d, f][0] == b && [b, d, f][1] == d && [b, d, f][2] == f;
    assert [a, c, e][0] == a && [a, c, e][1] == c && [a, c, e][2] == e;
  }

  lemma TidyThree(p: Sextet, q: Sextet, r: Sextet)
    ensures Grouped([High(p, q), Middle(q, r)]) == [p, q, r] <==> r % 4 == 0
  {
    Octets(p, q, r, 0);
    var x, y := High(p, q), Middle(q, r);
    assert Grouped([x, y]) == [First(x), Second(x, y), Third(y, 0)];
    TriplesEqual(p, First(x), q, Second(x, y), r, Third(y, 0));
  }

  lemma SameTail(v: seq<Sextet>, w: seq<Sextet>)
    requires |v| >= 4
    ensures v[..4] + w == v <==> w == v[4..]
  {
    assert (v[..4] + w)[4..] == w;
    assert v[..4] + v[4..] == v;
  }

  lemma TidyTail(v: seq<Sextet>)
    requires |v| >= 4
    ensures Tidy(v) <==> Tidy(v[4..])
  {
    FourLess(|v|);
    assert |v| > 4 ==> v[4..][|v| - 5] == v[|v| - 1];
  }

  lemma {:induction false} TidyRegroups(v: seq<Sextet>)
    requires Ungrouped(v).Some?
    ensures Grouped(Ungrouped(v).value) == v <==> Tidy(v)
  {
    if |v| >= 4 {
      TidyRegroups(v[4..]);
      RegroupFour(v, Ungrouped(v[4..]).value);
      SameTail(v, Grouped(Ungrouped(v[4..]).value));
      TidyTail(v);
    } else if |v| == 3 {
      TidyThree(v[0], v[1], v[2]);
      assert v == [v[0], v[1], v[2]];
    } else if |v| == 2 {
      TidyTwo(v[0], v[1]);
      assert v == [v[0], v[1]];
    }
  }

  lemma SpellInjective(v: seq<Sextet>, w: seq<Sextet>)
    ensures Spell(v) == Spell(w) <==> v == w
  {
    SpellIsInverse(v, "");
    SpellIsInverse(w, "");
  }

  /** A text is accepted exactly when it has only letters of the alphabet, no single left-over letter and no
      left-over bit set, and stands for a number of octets within bounds. */
  lemma AcceptedIsTidy(s: string, minimum: nat, maximum: nat)
    ensures Decode(s, minimum, maximum).Some? <==> Spelled(s) && Tidy(Values(s)) && minimum <= |s| * 3 / 4 <= maximum
  {
    if Spelled(s) {
      var v := Values(s);
      UngroupedLength(v);
      SpellIsInverse(v, s);
      if Ungrouped(v).Some? {
        var b := Ungrouped(v).value;
        TidyRegroups(v);
        SpellInjective(Grouped(b), v);
        if Tidy(v) { EncodedLength(b, maximum); }
      }
    }
  }
}
