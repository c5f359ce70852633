/** Pagination cursors (python/chat/pagination.py): 42 octets - version, kind, scope, signed microseconds since
    1970 and a tie-breaking identifier - in canonical Base64URL. */
module Cursor {
  import opened Wrappers
  import opened Base64Url
  import opened BigEndian

  const ZERO: seq<Octet> := [0, 0, 0, 0, 0, 0, 0, 0, 0, 0, 0, 0, 0, 0, 0, 0]

  type Uuid = b: seq<Octet> | |b| == 16 witness ZERO

  const SIZE: nat := 42
  const SECOND: int := 1_000_000
  const DAY_SECONDS: int := 86_400

  /** The moments a datetime can hold, years 1 to 9999, in microseconds since 1970. */
  const EARLIEST: int := -62_135_596_800_000_000
  const LATEST: int := 253_402_300_799_999_999

  datatype Kind = Conversations | Messages

  datatype Position = Position(at: int, id: Uuid)

  predicate InRange(at: int) {
    EARLIEST <= at <= LATEST
  }

  /** A timedelta as Python normalizes it: only the days may be negative. */
  datatype Delta = Delta(days: int, seconds: int, microseconds: int)

  function Since1970(at: int): Delta {
    Delta(at / (DAY_SECONDS * SECOND), at % (DAY_SECONDS * SECOND) / SECOND, at % SECOND)
  }

  function Micros(d: Delta): int {
    (d.days * DAY_SECONDS + d.seconds) * SECOND + d.microseconds
  }

  /** The parts of a normalized difference add up to the moment, before 1970 too. */
  lemma MicrosAddUp(at: int)
    ensures Micros(Since1970(at)) == at
    ensures 0 <= Since1970(at).seconds < DAY_SECONDS && 0 <= Since1970(at).microseconds < SECOND
  {
    var rest := at % (DAY_SECONDS * SECOND);
    assert rest % SECOND == at % SECOND by { assert at == at / (DAY_SECONDS * SECOND) * DAY_SECONDS * SECOND + rest; }
  }

  function Tag(kind: Kind): Octet {
    if kind == Conversations then 1 else 2
  }

  function ScopeOf(scope: Option<Uuid>): Uuid {
    if scope.Some? then scope.value else ZERO
  }

  function Layout(version: Octet, tag: Octet, scope: Uuid, at: int, id: Uuid): seq<Octet>
    requires -TWO_63 <= at < TWO_63
  {
    [version, tag] + scope + PackSigned(at) + id
  }

  function EncodeCursor(p: Position, kind: Kind, scope: Option<Uuid>): string
    requires InRange(p.at)
  {
    MicrosAddUp(p.at);
    Encode(Layout(1, Tag(kind), ScopeOf(scope), Micros(Since1970(p.at)), p.id))
  }

  /** The position that 42 octets spell for a kind and scope. */
  function Read(b: seq<Octet>, kind: Kind, scope: Option<Uuid>): Option<Position>
    requires |b| == SIZE
  {
    if b[0] != 1 || b[1] != Tag(kind) || b[2..18] != ScopeOf(scope) then None
    else if !InRange(UnpackSigned(b[18..26])) then None
    else Some(Position(UnpackSigned(b[18..26]), b[26..42]))
  }

  function DecodeCursor(text: string, kind: Kind, scope: Option<Uuid>): Option<Position> {
    match Decode(text, SIZE, SIZE)
    case None => None
    case Some(b) => Read(b, kind, scope)
  }

  lemma LayoutParts(version: Octet, tag: Octet, scope: Uuid, at: int, id: Uuid)
    requires -TWO_63 <= at < TWO_63
    ensures var b := Layout(version, tag, scope, at, id);
            |b| == SIZE && b[0] == version && b[1] == tag && b[2..18] == scope && b[18..26] == PackSigned(at)
              && b[26..42] == id
  {
    SignedIsInverse(at, [0, 0, 0, 0, 0, 0, 0, 0]);
  }

  lemma LayoutWhole(b: seq<Octet>)
    requires |b| == SIZE
    ensures -TWO_63 <= UnpackSigned(b[18..26]) < TWO_63
    ensures b == Layout(b[0], b[1], b[2..18], UnpackSigned(b[18..26]), b[26..42])
  {
    SignedIsInverse(0, b[18..26]);
  }

  lemma ReadIsInverse(b: seq<Octet>, p: Position, kind: Kind, scope: Option<Uuid>)
    requires |b| == SIZE
    ensures Read(b, kind, scope) == Some(p) <==> InRange(p.at) && b == Layout(1, Tag(kind), ScopeOf(scope), p.at, p.id)
  {
    LayoutWhole(b);
    if InRange(p.at) {
      LayoutParts(1, Tag(kind), ScopeOf(scope), p.at, p.id);
      SignedIsInverse(p.at, b[18..26]);
    }
  }

  /** A text decodes to a position exactly when it is the cursor of that position for that kind and scope:
      every moment from year 1 to 9999 comes back to the microsecond, and no other text is accepted. */
  lemma CursorIsInverse(text: string, p: Position, kind: Kind, scope: Option<Uuid>)
    ensures DecodeCursor(text, kind, scope) == Some(p) <==> InRange(p.at) && text == EncodeCursor(p, kind, scope)
  {
    if InRange(p.at) && text == EncodeCursor(p, kind, scope) {
      MicrosAddUp(p.at);
      var b := Layout(1, Tag(kind), ScopeOf(scope), p.at, p.id);
      LayoutParts(1, Tag(kind), ScopeOf(scope), p.at, p.id);
      DecodeIsInverse(text, b, SIZE, SIZE);
      ReadIsInverse(b, p, kind, scope);
    }
    if DecodeCursor(text, kind, scope) == Some(p) {
      var b := Decode(text, SIZE, SIZE).value;
      DecodeIsInverse(text, b, SIZE, SIZE);
      ReadIsInverse(b, p, kind, scope);
      MicrosAddUp(p.at);
    }
  }

  /** A cursor is worth nothing for another kind of list or another conversation. */
  lemma CursorIsBound(p: Position, kind: Kind, scope: Option<Uuid>, kind': Kind, scope': Option<Uuid>)
    requires InRange(p.at)
    ensures DecodeCursor(EncodeCursor(p, kind, scope), kind', scope').Some?
            <==> kind == kind' && ScopeOf(scope) == ScopeOf(scope')
  {
    MicrosAddUp(p.at);
    var b := Layout(1, Tag(kind), ScopeOf(scope), p.at, p.id);
    LayoutParts(1, Tag(kind), ScopeOf(scope), p.at, p.id);
    DecodeIsInverse(EncodeCursor(p, kind, scope), b, SIZE, SIZE);
    ReadIsInverse(b, p, kind, scope);
  }
}
