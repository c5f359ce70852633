/** What cursors and invitation codes look like, octet by octet and letter by letter: the inverse laws alone
    would hold of any other one-to-one spelling. */
module FormatOutcomes {
  import opened Wrappers
  import opened Persistence
  import opened Base64Url
  import opened BigEndian
  import opened Cursor
  import opened Invitation

  // ---- Letters --------------------------------------------------------------------------------

  /** A to Z, a to z, 0 to 9, hyphen and underscore, in this order (table 2 of RFC 4648). */
  lemma AlphabetIs(v: Sextet)
    ensures Letter(0) == 'A' && Letter(26) == 'a' && Letter(52) == '0' && Letter(62) == '-' && Letter(63) == '_'
    ensures v < 61 && v != 25 && v != 51 ==> Letter(v + 1) as int == Letter(v) as int + 1
  {
  }

  /** Three octets and their four letters spell one number, most significant first; one or two octets at the
      end are filled up with zero bits. */
  lemma BitsAre(x: Octet, y: Octet, z: Octet)
    ensures ((First(x) * 64 + Second(x, y)) * 64 + Third(y, z)) * 64 + Fourth(z) == (x * 256 + y) * 256 + z
    ensures First(x) * 64 + Second(x, 0) == x * 16
    ensures (First(x) * 64 + Second(x, y)) * 64 + Third(y, 0) == (x * 256 + y) * 4
  {
  }

  /** Texts are spelled three octets at a time. */
  lemma EncodedByThrees(b: seq<Octet>)
    ensures |b| >= 3 ==> Encode(b) == Encode(b[..3]) + Encode(b[3..])
    ensures |b| == 3 ==> Encode(b) == [Letter(First(b[0])), Letter(Second(b[0], b[1])), Letter(Third(b[1], b[2])),
                                       Letter(Fourth(b[2]))]
    ensures |b| == 2 ==> Encode(b) == [Letter(First(b[0])), Letter(Second(b[0], b[1])), Letter(Third(b[1], 0))]
    ensures |b| == 1 ==> Encode(b) == [Letter(First(b[0])), Letter(Second(b[0], 0))]
  {
    if |b| >= 3 {
      assert b[..3][3..] == [];
      assert Grouped(b) == Grouped(b[..3]) + Grouped(b[3..]);
    }
  }

  /** The test vectors of section 10 of RFC 4648, without padding. */
  lemma TestVectors()
    ensures Encode([]) == "" && Encode([102]) == "Zg" && Encode([102, 111]) == "Zm8"
    ensures Encode([102, 111, 111]) == "Zm9v" && Encode([102, 111, 111, 98]) == "Zm9vYg"
  {
    EncodedByThrees([102]);
    EncodedByThrees([102, 111]);
    EncodedByThrees([102, 111, 111]);
    var four: seq<Octet> := [102, 111, 111, 98];
    EncodedByThrees(four);
    assert four[..3] == [102, 111, 111] && four[3..] == [98];
    EncodedByThrees([98]);
  }

  // ---- Numbers --------------------------------------------------------------------------------

  /** The first octet is the most significant. */
  lemma {:induction false} FirstOctetWeighs(b: seq<Octet>)
    requires b != []
    ensures Unpack(b) == b[0] * Power(|b| - 1) + Unpack(b[1..])
  {
    if |b| == 1 {
      assert b[1..] == [] && b[..0] == [];
    } else {
      FirstOctetWeighs(b[..|b| - 1]);
      assert b[..|b| - 1][1..] == b[1..][..|b| - 2];
      assert b[0] * Power(|b| - 1) == 256 * (b[0] * Power(|b| - 2));
    }
  }

  /** Negative numbers have the weight of their two's complement. */
  lemma SignedIs(x: int)
    requires -TWO_63 <= x < TWO_63
    ensures |PackSigned(x)| == 8
    ensures Unpack(PackSigned(x)) == if x < 0 then x + 18_446_744_073_709_551_616 else x
  {
    Widths();
    PackedLength(if x < 0 then x + TWO_64 else x, 8);
    UnpackPacked(if x < 0 then x + TWO_64 else x, 8);
  }

  /** Days from 1 January of year 1 to that of year `y`. */
  function DaysBefore(y: nat): int
    requires y > 0
  {
    (y - 1) * 365 + (y - 1) / 4 - (y - 1) / 100 + (y - 1) / 400
  }

  /** Cursors hold exactly the moments from year 1 to the end of year 9999. */
  lemma RangeIs(at: int)
    ensures InRange(at) <==> (DaysBefore(1) - DaysBefore(1970)) * 86_400_000_000 <= at
                             < (DaysBefore(10000) - DaysBefore(1970)) * 86_400_000_000
  {
  }

  // ---- Whole texts ----------------------------------------------------------------------------

  /** A cursor is 42 octets: version 1, kind 1 or 2, the conversation or zeros, the moment as a signed number of
      eight octets, and the identifier. */
  lemma CursorOctets(p: Position, kind: Kind, scope: Option<Uuid>, b: seq<Octet>)
    requires InRange(p.at) && EncodeCursor(p, kind, scope) == Encode(b)
    ensures |b| == 42 && b[0] == 1 && b[1] == (match kind case Conversations => 1 case Messages => 2)
    ensures forall i :: 0 <= i < 16 ==> b[2 + i] == if scope.Some? then scope.value[i] else 0
    ensures Unpack(b[18..26]) == if p.at < 0 then p.at + 18_446_744_073_709_551_616 else p.at
    ensures forall i :: 0 <= i < 16 ==> b[26 + i] == p.id[i]
  {
    MicrosAddUp(p.at);
    var octets := Layout(1, Tag(kind), ScopeOf(scope), p.at, p.id);
    LayoutParts(1, Tag(kind), ScopeOf(scope), p.at, p.id);
    SameText(b, octets);
    SignedIs(p.at);
    forall i | 0 <= i < 16 ensures b[2 + i] == ScopeOf(scope)[i] && b[26 + i] == p.id[i] {
      assert b[2..18][i] == ScopeOf(scope)[i] && b[26..42][i] == p.id[i];
    }
  }

  lemma SameText(a: seq<Octet>, b: seq<Octet>)
    requires Encode(a) == Encode(b)
    ensures a == b
  {
    SpellInjective(Grouped(a), Grouped(b));
    UngroupedGrouped(a);
    UngroupedGrouped(b);
  }

  /** A code is 62 octets: version 1, the identifier, the generation in four octets, the creation time in eight,
      1 for stored and 0 for ephemeral, and the authenticator of these 30. */
  lemma CodeOctets(t: Token, mac: seq<Octet> -> Authenticator, b: seq<Octet>)
    requires 1 <= t.generation < 4_294_967_296 && 0 <= t.createdAt < 18_446_744_073_709_551_616
    requires EncodeCode(t, mac) == Some(Encode(b))
    ensures |b| == 62 && b[0] == 1 && b[1..17] == t.id
    ensures Unpack(b[17..21]) == t.generation && Unpack(b[21..29]) == t.createdAt
    ensures b[29] == (match t.mode case Stored => 1 case Ephemeral => 0)
    ensures b[30..] == mac(b[..30])
  {
    var payload := Payload(t);
    PayloadParts(t);
    SameText(b, payload + mac(payload));
    assert b[..30] == payload && b[30..] == mac(payload);
    assert b[1..17] == payload[1..17] && b[17..21] == payload[17..21] && b[21..29] == payload[21..29];
  }
}
