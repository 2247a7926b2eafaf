/** Citation markers in answers (gmrag_api/src/chat/mod.rs:30-88).

    An index marker is `[chunk:` and digits and `]`; a UUID marker has 36 hexadecimal digits and
    hyphens instead. Digits are ASCII digits: a marker with other Unicode digits matches the
    original's pattern, fails to parse, and is left as it is, just as if it had not matched. */
module Citations {
  import opened Wrappers
  import opened Collections

  // ----- UUIDs -----

  const USIZE_MAX := 0xFFFF_FFFF_FFFF_FFFF

  type Nibble = n: nat | n < 16

  /** A UUID as its 32 hexadecimal digits. */
  type Uuid = u: seq<Nibble> | |u| == 32 witness seq(32, i => 0)

  function HexDigit(n: Nibble): char {
    "0123456789abcdef"[n]
  }

  function HexValue(c: char): Option<Nibble> {
    if '0' <= c <= '9' then Some((c - '0') as nat)
    else if 'a' <= c <= 'f' then Some((c - 'a') as nat + 10)
    else if 'A' <= c <= 'F' then Some((c - 'A') as nat + 10)
    else None
  }

  predicate HyphenAt(i: nat) {
    i == 8 || i == 13 || i == 18 || i == 23
  }

  /** The digit that stands at text position `i`. */
  function DigitOf(i: nat): nat {
    if i < 8 then i else if i < 13 then i - 1 else if i < 18 then i - 2 else if i < 23 then i - 3 else i - 4
  }

  function PositionOf(k: nat): nat {
    if k < 8 then k else if k < 12 then k + 1 else if k < 16 then k + 2 else if k < 20 then k + 3 else k + 4
  }

  /** The lower-case, hyphenated form. */
  function Format(u: Uuid): (s: string)
    ensures |s| == 36
  {
    seq(36, i requires 0 <= i < 36 => if HyphenAt(i) then '-' else HexDigit(u[DigitOf(i)]))
  }

  /** `Uuid::parse_str` on text of the length that the pattern allows. */
  function ParseUuid(s: string): Option<Uuid>
    requires |s| == 36
  {
    if (forall i | 0 <= i < 36 :: if HyphenAt(i) then s[i] == '-' else HexValue(s[i]).Some?)
    then Some(seq(32, k requires 0 <= k < 32 && HexValue(s[PositionOf(k)]).Some? => HexValue(s[PositionOf(k)]).value))
    else None
  }

  lemma HexRoundTrip(n: Nibble)
    ensures HexValue(HexDigit(n)) == Some(n)
  {
  }

  lemma ParseInvertsFormat(u: Uuid)
    ensures ParseUuid(Format(u)) == Some(u)
  {
    hide HexValue, HexDigit;
    var s := Format(u);
    forall i | 0 <= i < 36 ensures if HyphenAt(i) then s[i] == '-' else HexValue(s[i]) == Some(u[DigitOf(i)]) {
      if !HyphenAt(i) { HexRoundTrip(u[DigitOf(i)]); }
    }
    assert forall k: nat | k < 32 :: DigitOf(PositionOf(k)) == k && !HyphenAt(PositionOf(k)) && PositionOf(k) < 36;
    assert forall k | 0 <= k < 32 :: HexValue(s[PositionOf(k)]) == Some(u[k]);
    hide DigitOf, PositionOf, Format;
    assert ParseUuid(s).Some?;
    var parsed: seq<Nibble> := ParseUuid(s).value;
    assert forall k | 0 <= k < 32 :: parsed[k] == u[k];
    assert parsed == u;
  }

  // ----- Markers -----

  predicate IsDigit(c: char) {
    '0' <= c <= '9'
  }

  predicate UuidChar(c: char) {
    HexValue(c).Some? || c == '-'
  }

  function DigitRun(s: string): (n: nat)
    ensures n <= |s| && (forall i | 0 <= i < n :: IsDigit(s[i])) && (n < |s| ==> !IsDigit(s[n]))
  {
    if s == "" || !IsDigit(s[0]) then 0 else 1 + DigitRun(s[1..])
  }

  const OPENING := "[chunk:"

  predicate Opens(s: string) {
    |s| >= 7 && s[..7] == OPENING
  }

  /** The digits of the index marker that `s` starts with. */
  function IndexMarkerAt(s: string): (digits: Option<string>)
    ensures digits.Some? ==>
              && |s| >= 8 + |digits.value| && digits.value != "" && s[0] == '['
              && s[..8 + |digits.value|] == OPENING + digits.value + "]"
              && forall i | 0 <= i < |digits.value| :: IsDigit(digits.value[i])
  {
    if !Opens(s) then None
    else
      var n := DigitRun(s[7..]);
      if n > 0 && 7 + n < |s| && s[7 + n] == ']' then Some(s[7..][..n]) else None
  }

  /** The body of the UUID marker that `s` starts with. */
  function UuidMarkerAt(s: string): (body: Option<string>)
    ensures body.Some? ==> |s| >= 44 && |body.value| == 36 && s[0] == '['
    ensures body.Some? ==> forall i | 1 <= i < 44 :: s[i] != '['
  {
    if |s| >= 44 && Opens(s) && (forall i | 7 <= i < 43 :: UuidChar(s[i])) && s[43] == ']' then Some(s[7..43]) else None
  }

  function DecimalValue(digits: string): nat
    requires forall i | 0 <= i < |digits| :: IsDigit(digits[i])
  {
    if digits == "" then 0
    else
      assert IsDigit(digits[|digits| - 1]);
      DecimalValue(digits[..|digits| - 1]) * 10 + (digits[|digits| - 1] as int - '0' as int)
  }

  /** The chunk that an index marker names: its digits fit a `usize` and lie in `1..=len`. */
  function Named(digits: string, ids: seq<Uuid>): Option<Uuid>
    requires forall i | 0 <= i < |digits| :: IsDigit(digits[i])
  {
    var index := DecimalValue(digits);
    if index > USIZE_MAX || index == 0 || index > |ids| then None else Some(ids[index - 1])
  }

  function UuidMarker(u: Uuid): string {
    OPENING + Format(u) + "]"
  }

  /** What `replace_all` makes of an index marker. */
  function Replacement(digits: string, ids: seq<Uuid>): string
    requires forall i | 0 <= i < |digits| :: IsDigit(digits[i])
  {
    match Named(digits, ids)
    case Some(u) => UuidMarker(u)
    case None => OPENING + digits + "]"
  }

  /** The text with its index markers resolved, scanned from left to right. */
  function Resolved(text: string, ids: seq<Uuid>): string
    decreases |text|
  {
    if text == "" then ""
    else
      match IndexMarkerAt(text)
      case Some(digits) => Replacement(digits, ids) + Resolved(text[8 + |digits|..], ids)
      case None => [text[0]] + Resolved(text[1..], ids)
  }

  /** The chunks named by index markers, in order. */
  function NamedIn(text: string, ids: seq<Uuid>): seq<Uuid>
    decreases |text|
  {
    if text == "" then []
    else
      match IndexMarkerAt(text)
      case Some(digits) =>
        (if Named(digits, ids).Some? then [Named(digits, ids).value] else []) + NamedIn(text[8 + |digits|..], ids)
      case None => NamedIn(text[1..], ids)
  }

  /** The chunks in UUID markers, in order. */
  function UuidsIn(text: string): seq<Uuid>
    decreases |text|
  {
    if text == "" then []
    else
      match UuidMarkerAt(text)
      case Some(body) => (if ParseUuid(body).Some? then [ParseUuid(body).value] else []) + UuidsIn(text[44..])
      case None => UuidsIn(text[1..])
  }

  // ----- Lists without duplicates -----

  function Added(us: seq<Uuid>, u: Uuid): seq<Uuid> {
    if u in us then us else us + [u]
  }

  /** First occurrences, in order. */
  function Unique(us: seq<Uuid>): seq<Uuid> {
    if us == [] then [] else Added(Unique(us[..|us| - 1]), us[|us| - 1])
  }

  lemma {:induction false} UniqueIs(us: seq<Uuid>)
    ensures Distinct(Unique(us)) && forall u :: u in Unique(us) <==> u in us
  {
    if us != [] {
      UniqueIs(us[..|us| - 1]);
      assert us == us[..|us| - 1] + [us[|us| - 1]];
    }
  }

  /** What comes later never changes the order of what came before. */
  lemma {:induction false} UniqueKeepsOrder(a: seq<Uuid>, b: seq<Uuid>)
    ensures Unique(a) <= Unique(a + b)
  {
    if b == [] {
      assert a + b == a;
    } else {
      UniqueKeepsOrder(a, b[..|b| - 1]);
      assert a + b == a + b[..|b| - 1] + [b[|b| - 1]];
      UniqueAppend(a + b[..|b| - 1], b[|b| - 1]);
    }
  }

  lemma UniqueAppend(us: seq<Uuid>, u: Uuid)
    ensures Unique(us + [u]) == Added(Unique(us), u)
  {
    assert (us + [u])[..|us|] == us;
  }

  // ----- The two operations -----

  /** The rest of the scan after the marker or the character at its head. */
  function AfterUuidHead(text: string): string
    requires text != ""
  {
    if UuidMarkerAt(text).Some? then text[44..] else text[1..]
  }

  function UuidAtHead(text: string): seq<Uuid> {
    var body := UuidMarkerAt(text);
    if body.Some? && ParseUuid(body.value).Some? then [ParseUuid(body.value).value] else []
  }

  lemma UuidsUnfold(text: string)
    requires text != ""
    ensures UuidsIn(text) == UuidAtHead(text) + UuidsIn(AfterUuidHead(text))
  {
  }

  /** `extract_chunk_citations`. */
  method ExtractChunkCitations(text: string) returns (citations: seq<Uuid>)
    ensures citations == Unique(UuidsIn(text))
  {
    hide UuidMarkerAt, ParseUuid, UuidsIn, Unique;
    var seen: set<Uuid> := {};
    citations := [];
    var rest := text;
    ghost var found: seq<Uuid> := [];
    NothingFound();
    while rest != ""
      invariant UuidsIn(text) == found + UuidsIn(rest)
      invariant citations == Unique(found) && seen == set u | u in citations
      decreases |rest|
    {
      UuidsUnfold(rest);
      var body := UuidMarkerAt(rest);
      ghost var more := UuidsIn(AfterUuidHead(rest));
      if body.None? {
        rest := rest[1..];
        assert [] + more == more;
      } else {
        var parsed := ParseUuid(body.value);
        rest := rest[44..];
        if parsed.Some? {
          var uuid := parsed.value;
          UniqueAppend(found, uuid);
          assert found + ([uuid] + more) == found + [uuid] + more;
          found := found + [uuid];
          if uuid !in seen {
            seen := seen + {uuid};
            citations := citations + [uuid];
          }
        } else {
          assert [] + more == more;
        }
      }
    }
    assert found + [] == found;
  }

  lemma NothingFound()
    ensures UuidsIn("") == [] && Unique([]) == [] && forall us: seq<Uuid> :: [] + us == us
  {
  }

  /** One step of the scan: what is shown for the marker or character at the head, the chunk it
      names, and the text after it. */
  function ScanHead(text: string, ids: seq<Uuid>): (string, seq<Uuid>, string)
    requires text != ""
  {
    match IndexMarkerAt(text)
    case None => ([text[0]], [], text[1..])
    case Some(digits) =>
      (Replacement(digits, ids),
       if Named(digits, ids).Some? then [Named(digits, ids).value] else [],
       text[8 + |digits|..])
  }

  lemma ScanSteps(text: string, ids: seq<Uuid>, resolved: string, found: seq<Uuid>)
    requires text != ""
    ensures var head := ScanHead(text, ids);
            && |head.2| < |text|
            && resolved + Resolved(text, ids) == resolved + head.0 + Resolved(head.2, ids)
            && found + NamedIn(text, ids) == found + head.1 + NamedIn(head.2, ids)
  {
    hide IndexMarkerAt, Named;
    var head := ScanHead(text, ids);
    assert Resolved(text, ids) == head.0 + Resolved(head.2, ids);
    assert NamedIn(text, ids) == head.1 + NamedIn(head.2, ids);
  }

  /** The scan of `replace_all`, with its closure. */
  method ReplaceMarkers(text: string, ids: seq<Uuid>) returns (resolved: string, citations: seq<Uuid>)
    ensures resolved == Resolved(text, ids) && citations == Unique(NamedIn(text, ids))
  {
    hide IndexMarkerAt, Named, Resolved, NamedIn, Unique;
    var seen: set<Uuid> := {};
    resolved, citations := "", [];
    var rest := text;
    ghost var found: seq<Uuid> := [];
    NothingNamed(ids);
    NothingFound();
    while rest != ""
      invariant Resolved(text, ids) == resolved + Resolved(rest, ids)
      invariant NamedIn(text, ids) == found + NamedIn(rest, ids)
      invariant citations == Unique(found) && seen == set u | u in citations
      decreases |rest|
    {
      ScanSteps(rest, ids, resolved, found);
      ghost var head := ScanHead(rest, ids);
      hide ScanHead;
      var shown, named, tail := ResolveHead(rest, ids);
      if named.Some? {
        UniqueAppend(found, named.value);
        if named.value !in seen {
          seen := seen + {named.value};
          citations := citations + [named.value];
        }
      }
      assert found + [] == found;
      resolved, rest, found := resolved + shown, tail, found + head.1;
    }
    assert resolved + "" == resolved && found + [] == found;
  }

  /** The closure, or the copying of one character. */
  method ResolveHead(text: string, ids: seq<Uuid>) returns (shown: string, named: Option<Uuid>, tail: string)
    requires text != ""
    ensures ScanHead(text, ids) == (shown, if named.Some? then [named.value] else [], tail)
  {
    var marker := IndexMarkerAt(text);
    if marker.None? {
      return [text[0]], None, text[1..];
    }
    var digits := marker.value;
    tail := text[8 + |digits|..];
    named := Named(digits, ids);
    shown := if named.Some? then OPENING + Format(named.value) + "]" else OPENING + digits + "]";
  }

  /** `resolve_chunk_index_citations`: the list is that of the index markers and then that of the
      resolved text, each chunk once. */
  method ResolveChunkIndexCitations(text: string, ids: seq<Uuid>) returns (resolved: string, citations: seq<Uuid>)
    ensures resolved == Resolved(text, ids)
    ensures citations == Unique(NamedIn(text, ids) + UuidsIn(resolved))
  {
    hide Resolved, NamedIn, UuidsIn, Unique;
    resolved, citations := ReplaceMarkers(text, ids);
    var seen := set u | u in citations;
    var extracted := ExtractChunkCitations(resolved);
    ghost var named := NamedIn(text, ids);
    assert named + extracted[..0] == named;
    for i := 0 to |extracted|
      invariant citations == Unique(named + extracted[..i]) && seen == set u | u in citations
    {
      assert named + extracted[..i + 1] == named + extracted[..i] + [extracted[i]];
      UniqueAppend(named + extracted[..i], extracted[i]);
      if extracted[i] !in seen {
        seen := seen + {extracted[i]};
        citations := citations + [extracted[i]];
      }
    }
    assert extracted[..|extracted|] == extracted;
    UniqueOfUnique(named, UuidsIn(resolved));
  }

  lemma NothingNamed(ids: seq<Uuid>)
    ensures Resolved("", ids) == "" && NamedIn("", ids) == []
  {
  }

  lemma ScanUnfolds(text: string, ids: seq<Uuid>)
    requires text != ""
    ensures match IndexMarkerAt(text)
            case None =>
              && Resolved(text, ids) == [text[0]] + Resolved(text[1..], ids)
              && NamedIn(text, ids) == NamedIn(text[1..], ids)
            case Some(digits) =>
              && Resolved(text, ids) == Replacement(digits, ids) + Resolved(text[8 + |digits|..], ids)
              && NamedIn(text, ids)
                 == (if Named(digits, ids).Some? then [Named(digits, ids).value] else [])
                   + NamedIn(text[8 + |digits|..], ids)
  {
  }

  lemma {:induction false} UniqueOfUnique(a: seq<Uuid>, b: seq<Uuid>)
    ensures Unique(a + Unique(b)) == Unique(a + b)
  {
    if b != [] {
      var front, u := b[..|b| - 1], b[|b| - 1];
      UniqueOfUnique(a, front);
      assert a + b == a + front + [u];
      UniqueAppend(a + front, u);
      if u in Unique(front) {
        UniqueIs(front);
        UniqueIs(a + front);
      } else {
        assert a + (Unique(front) + [u]) == a + Unique(front) + [u];
        UniqueAppend(a + Unique(front), u);
      }
    }
  }

  // ----- Brackets -----

  /** The part before the first `[`. */
  function Bare(s: string): (r: string)
    ensures |r| <= |s| && r == s[..|r|] && (|r| < |s| ==> s[|r|] == '[')
    ensures forall i | 0 <= i < |r| :: r[i] != '['
  {
    if s == "" || s[0] == '[' then "" else [s[0]] + Bare(s[1..])
  }

  lemma {:induction false} DigitRunIs(s: string, n: nat)
    requires n <= |s| && (forall i | 0 <= i < n :: IsDigit(s[i])) && (n < |s| ==> !IsDigit(s[n]))
    ensures DigitRun(s) == n
  {
    if n > 0 { DigitRunIs(s[1..], n - 1); }
  }

  /** A marker has no bracket inside, so what follows the next bracket does not matter to it. */
  lemma MarkerIsBare(c: char, a: string, b: string)
    requires Bare(a) == Bare(b)
    ensures IndexMarkerAt([c] + a) == IndexMarkerAt([c] + b)
  {
    if IndexMarkerAt([c] + a).Some? { MarkerCarries(c, a, b); }
    if IndexMarkerAt([c] + b).Some? { MarkerCarries(c, b, a); }
  }

  lemma MarkerHasOneBracket(digits: string)
    requires forall i | 0 <= i < |digits| :: IsDigit(digits[i])
    ensures var m := OPENING + digits + "]"; m[0] == '[' && forall i | 1 <= i < |m| :: m[i] != '['
  {
  }

  lemma MarkerCarries(c: char, a: string, b: string)
    requires Bare(a) == Bare(b) && IndexMarkerAt([c] + a).Some?
    ensures IndexMarkerAt([c] + b) == IndexMarkerAt([c] + a)
  {
    hide IndexMarkerAt;
    var digits := IndexMarkerAt([c] + a).value;
    var n := 7 + |digits|;
    var m := OPENING + digits + "]";
    MarkerHasOneBracket(digits);
    assert forall i | 0 <= i < n :: a[i] == ([c] + a)[..n + 1][i + 1] == m[i + 1];
    assert |Bare(a)| >= n;
    assert b[..n] == Bare(b)[..n] == Bare(a)[..n] == a[..n];
    MarkerAt([c] + b, digits);
  }

  /** Text that starts with a marker's spelling starts with that marker. */
  lemma MarkerAt(s: string, digits: string)
    requires digits != "" && forall i | 0 <= i < |digits| :: IsDigit(digits[i])
    requires |s| >= 8 + |digits| && s[..8 + |digits|] == OPENING + digits + "]"
    ensures IndexMarkerAt(s) == Some(digits)
  {
    var m := OPENING + digits + "]";
    assert s[..7] == s[..8 + |digits|][..7] == OPENING;
    assert s[7 + |digits|] == s[..8 + |digits|][7 + |digits|] == ']';
    forall i | 0 <= i < |digits| ensures s[7..][i] == digits[i] {
      assert s[7 + i] == s[..8 + |digits|][7 + i] == m[7 + i];
    }
    assert s[7..][..|digits|] == digits;
    DigitRunIs(s[7..], |digits|);
  }

  /** Resolving leaves the text before the first bracket as it is. */
  lemma {:induction false} BareIsKept(text: string, ids: seq<Uuid>)
    ensures Bare(Resolved(text, ids)) == Bare(text)
    decreases |text|
  {
    hide IndexMarkerAt, Named;
    if text != "" {
      ScanUnfolds(text, ids);
      if IndexMarkerAt(text).None? && text[0] != '[' { BareIsKept(text[1..], ids); }
    }
  }

  /** Text without brackets is scanned character by character. */
  lemma {:induction false} BareScans(p: string, x: string, ids: seq<Uuid>)
    requires forall i | 0 <= i < |p| :: p[i] != '['
    ensures Resolved(p + x, ids) == p + Resolved(x, ids)
  {
    hide IndexMarkerAt, Resolved, Named;
    if p == "" {
      assert p + x == x;
    } else {
      assert (p + x)[0] == p[0] && (p + x)[1..] == p[1..] + x;
      BareScans(p[1..], x, ids);
      ScanUnfolds(p + x, ids);
      assert [p[0]] + (p[1..] + Resolved(x, ids)) == p + Resolved(x, ids);
    }
  }

  lemma UuidMarkerHasOneBracket(u: Uuid)
    ensures |UuidMarker(u)| == 44 && UuidMarker(u)[0] == '['
    ensures forall i | 1 <= i < 44 :: UuidMarker(u)[i] != '['
    ensures UuidMarker(u)[15] == '-' && UuidMarker(u)[..7] == OPENING
  {
    assert forall i | 0 <= i < 36 :: UuidMarker(u)[7 + i] == Format(u)[i];
    assert forall i | 0 <= i < 36 :: Format(u)[i] != '[';
  }

  /** A UUID marker is not an index marker: its ninth body character is a hyphen. */
  lemma UuidMarkerIsNoIndexMarker(u: Uuid, x: string)
    ensures IndexMarkerAt(UuidMarker(u) + x).None?
  {
    hide UuidMarker;
    if IndexMarkerAt(UuidMarker(u) + x).Some? { SpellsNoIndexMarker(u, x, IndexMarkerAt(UuidMarker(u) + x).value); }
  }

  lemma SpellsNoIndexMarker(u: Uuid, x: string, digits: string)
    requires forall i | 0 <= i < |digits| :: IsDigit(digits[i])
    requires |UuidMarker(u) + x| >= 8 + |digits|
    ensures (UuidMarker(u) + x)[..8 + |digits|] != OPENING + digits + "]"
  {
    hide Format;
    UuidMarkerHasOneBracket(u);
    if |digits| <= 8 {
      ShortFormatIsNoMarker(u, x, digits);
    } else {
      assert (UuidMarker(u) + x)[..8 + |digits|][15] == '-';
      assert (OPENING + digits + "]")[15] == digits[8];
    }
  }

  lemma UuidMarkerScans(u: Uuid, x: string, ids: seq<Uuid>)
    ensures Resolved(UuidMarker(u) + x, ids) == UuidMarker(u) + Resolved(x, ids)
  {
    hide UuidMarker, Resolved;
    var m := UuidMarker(u);
    var s := m + x;
    UuidMarkerHasOneBracket(u);
    UuidMarkerIsNoIndexMarker(u, x);
    ScanUnfolds(s, ids);
    assert s[1..] == m[1..] + x;
    BareScans(m[1..], x, ids);
    assert [m[0]] + (m[1..] + Resolved(x, ids)) == m + Resolved(x, ids);
  }

  lemma ShortFormatIsNoMarker(u: Uuid, x: string, digits: string)
    requires |digits| <= 8
    ensures (UuidMarker(u) + x)[..8 + |digits|] != OPENING + digits + "]"
  {
    var n := |digits|;
    assert (UuidMarker(u) + x)[7 + n] == Format(u)[n];
    assert Format(u)[n] != ']';
    assert (OPENING + digits + "]")[7 + n] == ']';
  }

  // ----- The main results -----

  /** Resolving again changes nothing: no replacement makes or completes an index marker. */
  lemma {:induction false} ResolvingIsIdempotent(text: string, ids: seq<Uuid>)
    ensures Resolved(Resolved(text, ids), ids) == Resolved(text, ids)
    decreases |text|
  {
    hide IndexMarkerAt, UuidMarker, Resolved;
    NothingNamed(ids);
    if text != "" {
      ScanUnfolds(text, ids);
      match IndexMarkerAt(text) {
        case None =>
          var rest := Resolved(text[1..], ids);
          ResolvingIsIdempotent(text[1..], ids);
          BareIsKept(text[1..], ids);
          MarkerIsBare(text[0], text[1..], rest);
          assert [text[0]] + text[1..] == text;
          ScanUnfolds([text[0]] + rest, ids);
          assert ([text[0]] + rest)[1..] == rest;
        case Some(digits) =>
          var rest := Resolved(text[8 + |digits|..], ids);
          ResolvingIsIdempotent(text[8 + |digits|..], ids);
          match Named(digits, ids) {
            case Some(u) => UuidMarkerScans(u, rest, ids);
            case None => UnnamedMarkerScans(digits, rest, ids);
          }
      }
    }
  }

  lemma UnnamedMarkerScans(digits: string, x: string, ids: seq<Uuid>)
    requires digits != "" && (forall i | 0 <= i < |digits| :: IsDigit(digits[i])) && Named(digits, ids).None?
    ensures Resolved(OPENING + digits + "]" + x, ids) == OPENING + digits + "]" + Resolved(x, ids)
  {
    hide Named, Resolved, IndexMarkerAt;
    var m := OPENING + digits + "]";
    assert (m + x)[..|m|] == m && (m + x)[|m|..] == x;
    MarkerAt(m + x, digits);
    ScanUnfolds(m + x, ids);
  }

  /** A stretch of text: a marker that names a chunk, or text that stays. */
  datatype Segment = Named(digits: string, uuid: Uuid) | Kept(text: string)

  function Segments(text: string, ids: seq<Uuid>): seq<Segment>
    decreases |text|
  {
    if text == "" then []
    else
      match IndexMarkerAt(text)
      case Some(digits) =>
        [if Named(digits, ids).Some? then Segment.Named(digits, Named(digits, ids).value)
          else Kept(OPENING + digits + "]")]
        + Segments(text[8 + |digits|..], ids)
      case None => [Kept([text[0]])] + Segments(text[1..], ids)
  }

  function Spelled(segments: seq<Segment>, resolved: bool): string {
    if segments == [] then ""
    else
      (match segments[0]
       case Kept(text) => text
       case Named(digits, uuid) => if resolved then UuidMarker(uuid) else OPENING + digits + "]")
      + Spelled(segments[1..], resolved)
  }

  lemma SpelledUnfolds(head: Segment, tail: seq<Segment>, resolved: bool)
    ensures Spelled([head] + tail, resolved)
         == (match head
             case Kept(text) => text
             case Named(digits, uuid) => if resolved then UuidMarker(uuid) else OPENING + digits + "]")
            + Spelled(tail, resolved)
  {
    assert ([head] + tail)[1..] == tail;
  }

  /** The text and the resolved text differ only in the markers that name a chunk. */
  lemma {:induction false} OnlyNamedMarkersChange(text: string, ids: seq<Uuid>)
    ensures Spelled(Segments(text, ids), false) == text
    ensures Spelled(Segments(text, ids), true) == Resolved(text, ids)
    decreases |text|
  {
    hide UuidMarker, IndexMarkerAt, Named, Spelled, Resolved;
    NothingNamed(ids);
    if text == "" {
      assert Spelled([], false) == Spelled([], true) == "" by { NothingSpelled(); }
    } else {
      ScanUnfolds(text, ids);
      match IndexMarkerAt(text) {
        case None =>
          OnlyNamedMarkersChange(text[1..], ids);
          assert [text[0]] + text[1..] == text;
          SpelledUnfolds(Kept([text[0]]), Segments(text[1..], ids), false);
          SpelledUnfolds(Kept([text[0]]), Segments(text[1..], ids), true);
        case Some(digits) =>
          var tail := Segments(text[8 + |digits|..], ids);
          OnlyNamedMarkersChange(text[8 + |digits|..], ids);
          assert text[..8 + |digits|] + text[8 + |digits|..] == text;
          var head := if Named(digits, ids).Some? then Segment.Named(digits, Named(digits, ids).value)
            else Kept(OPENING + digits + "]");
          SpelledUnfolds(head, tail, false);
          SpelledUnfolds(head, tail, true);
      }
    }
  }

  lemma NothingSpelled()
    ensures Spelled([], false) == Spelled([], true) == ""
  {
  }

  // ----- The list -----

  /** Text without brackets holds no marker and completes none. */
  lemma {:induction false} BareHasNoUuids(p: string, x: string)
    requires forall i | 0 <= i < |p| :: p[i] != '['
    ensures UuidsIn(p + x) == UuidsIn(x)
  {
    hide UuidMarkerAt;
    if p == "" {
      assert p + x == x;
    } else {
      assert (p + x)[0] == p[0] && (p + x)[1..] == p[1..] + x;
      BareHasNoUuids(p[1..], x);
    }
  }

  /** A marker further on is found, whatever comes before it. */
  lemma LaterUuidsAreFound(c: char, y: string)
    ensures forall u | u in UuidsIn(y) :: u in UuidsIn([c] + y)
  {
    var s := [c] + y;
    hide UuidMarkerAt;
    UuidsUnfold(s);
    assert s[1..] == y;
    if UuidMarkerAt(s).Some? {
      assert forall i | 0 <= i < 43 :: y[..43][i] == s[i + 1];
      assert y == y[..43] + y[43..] && s[44..] == y[43..];
      BareHasNoUuids(y[..43], y[43..]);
    }
  }

  lemma {:induction false} UuidsBehind(p: string, y: string)
    ensures forall u | u in UuidsIn(y) :: u in UuidsIn(p + y)
  {
    hide UuidsIn;
    if p == "" {
      assert p + y == y;
    } else {
      UuidsBehind(p[1..], y);
      LaterUuidsAreFound(p[0], p[1..] + y);
      assert [p[0]] + (p[1..] + y) == p + y;
    }
  }

  lemma FormatIsUuidText(u: Uuid)
    ensures forall i | 0 <= i < 36 :: UuidChar(Format(u)[i])
  {
    forall n: Nibble ensures HexValue(HexDigit(n)).Some? {}
  }

  lemma ReplacementIsFound(u: Uuid, x: string)
    ensures UuidsIn(UuidMarker(u) + x) == [u] + UuidsIn(x)
  {
    var s := UuidMarker(u) + x;
    ParseInvertsFormat(u);
    FormatIsUuidText(u);
    hide Format, ParseUuid, UuidChar;
    assert s[7..43] == Format(u);
    assert forall i | 7 <= i < 43 :: s[i] == Format(u)[i - 7];
    assert s[..7] == OPENING && s[43] == ']' && s[44..] == x;
    UuidsUnfold(s);
  }

  lemma {:induction false} NamedAreFound(text: string, ids: seq<Uuid>)
    ensures forall u | u in NamedIn(text, ids) :: u in UuidsIn(Resolved(text, ids))
    decreases |text|
  {
    hide IndexMarkerAt, UuidMarker, Resolved, NamedIn, UuidsIn;
    NothingNamed(ids);
    if text != "" {
      ScanUnfolds(text, ids);
      match IndexMarkerAt(text) {
        case None =>
          NamedAreFound(text[1..], ids);
          UuidsBehind([text[0]], Resolved(text[1..], ids));
        case Some(digits) =>
          NamedAreFound(text[8 + |digits|..], ids);
          match Named(digits, ids) {
            case Some(u) => ReplacementIsFound(u, Resolved(text[8 + |digits|..], ids));
            case None => UuidsBehind(OPENING + digits + "]", Resolved(text[8 + |digits|..], ids));
          }
      }
    }
  }

  /** The returned list has no duplicates and names exactly the chunks that the resolved text cites. */
  lemma ListIsWhatTheTextCites(text: string, ids: seq<Uuid>)
    ensures var list := Unique(NamedIn(text, ids) + UuidsIn(Resolved(text, ids)));
            && Distinct(list)
            && forall u :: u in list <==> u in Unique(UuidsIn(Resolved(text, ids)))
  {
    hide NamedIn, UuidsIn, Resolved, Unique;
    NamedAreFound(text, ids);
    UniqueIs(NamedIn(text, ids) + UuidsIn(Resolved(text, ids)));
    UniqueIs(UuidsIn(Resolved(text, ids)));
  }

  /** Only chunks that were given are named. */
  lemma NamedChunksAreGiven(text: string, ids: seq<Uuid>, u: Uuid)
    requires u in NamedIn(text, ids)
    ensures u in ids
    decreases |text|
  {
    hide IndexMarkerAt;
    if text != "" {
      match IndexMarkerAt(text) {
        case None => NamedChunksAreGiven(text[1..], ids, u);
        case Some(digits) =>
          if u in NamedIn(text[8 + |digits|..], ids) { NamedChunksAreGiven(text[8 + |digits|..], ids, u); }
      }
    }
  }

  // ----- Which chunk a number names -----

  function DigitChar(d: nat): char
    requires d < 10
  {
    ('0' as int + d) as char
  }

  /** The decimal numeral of a number. */
  function Decimal(n: nat): string {
    (if n < 10 then "" else Decimal(n / 10)) + [DigitChar(n % 10)]
  }

  predicate AllDigits(s: string) {
    forall i | 0 <= i < |s| :: IsDigit(s[i])
  }

  lemma OneMoreDigit(front: string, d: nat)
    requires AllDigits(front) && d < 10
    ensures AllDigits(front + [DigitChar(d)])
    ensures DecimalValue(front + [DigitChar(d)]) == DecimalValue(front) * 10 + d
  {
    var s := front + [DigitChar(d)];
    assert s[..|s| - 1] == front && s[|s| - 1] == DigitChar(d);
  }

  lemma {:induction false} DecimalSpells(n: nat)
    ensures Decimal(n) != "" && AllDigits(Decimal(n)) && DecimalValue(Decimal(n)) == n
  {
    if n < 10 {
      OneMoreDigit("", n);
    } else {
      DecimalSpells(n / 10);
      OneMoreDigit(Decimal(n / 10), n % 10);
    }
  }

  lemma {:induction false} BareStops(p: string, y: string)
    requires y != "" && y[0] == '['
    ensures Bare(p + y) == Bare(p)
  {
    if p == "" {
      assert p + y == y;
    } else {
      assert (p + y)[0] == p[0] && (p + y)[1..] == p[1..] + y;
      BareStops(p[1..], y);
    }
  }

  lemma HeadUnfolds(text: string, ids: seq<Uuid>)
    requires text != ""
    ensures var head := ScanHead(text, ids);
            && |head.2| < |text|
            && Resolved(text, ids) == head.0 + Resolved(head.2, ids)
            && NamedIn(text, ids) == head.1 + NamedIn(head.2, ids)
  {
    hide IndexMarkerAt, Named;
  }

  /** The scan takes the same step whether or not a bracket follows. */
  lemma HeadStops(p: string, y: string, ids: seq<Uuid>)
    requires p != "" && y != "" && y[0] == '['
    ensures ScanHead(p + y, ids).0 == ScanHead(p, ids).0 && ScanHead(p + y, ids).1 == ScanHead(p, ids).1
    ensures ScanHead(p + y, ids).2 == ScanHead(p, ids).2 + y
  {
    hide IndexMarkerAt, Named, Replacement, Bare;
    BareStops(p[1..], y);
    MarkerIsBare(p[0], p[1..] + y, p[1..]);
    HeadAndTail(p, y);
    var marker := IndexMarkerAt(p);
    var n := if marker.Some? then 8 + |marker.value| else 1;
    DropThrough(p, y, n);
  }

  lemma HeadAndTail(p: string, y: string)
    requires p != ""
    ensures [p[0]] + (p[1..] + y) == p + y && [p[0]] + p[1..] == p && (p + y)[0] == p[0]
  {
  }

  lemma DropThrough(p: string, y: string, n: nat)
    requires n <= |p|
    ensures (p + y)[n..] == p[n..] + y
  {
  }

  lemma HeadOfMarker(digits: string, x: string, ids: seq<Uuid>)
    requires digits != "" && AllDigits(digits)
    ensures ScanHead(OPENING + digits + "]" + x, ids)
         == (Replacement(digits, ids), if Named(digits, ids).Some? then [Named(digits, ids).value] else [], x)
  {
    hide Named, Replacement, IndexMarkerAt;
    var m, y := OPENING + digits + "]", OPENING + digits + "]" + x;
    assert y == m + x && y[..|m|] == m && y[|m|..] == x;
    MarkerAt(y, digits);
  }

  /** A marker is resolved in the same way wherever it stands: what comes before it can neither swallow
      nor complete it. */
  lemma {:induction false} MarkerInside(p: string, digits: string, x: string, ids: seq<Uuid>)
    requires digits != "" && AllDigits(digits)
    ensures var y := OPENING + digits + "]" + x;
            var head := ScanHead(y, ids);
            && Resolved(p + y, ids) == Resolved(p, ids) + (head.0 + Resolved(x, ids))
            && NamedIn(p + y, ids) == NamedIn(p, ids) + (head.1 + NamedIn(x, ids))
    decreases |p|
  {
    hide ScanHead, Resolved, NamedIn;
    var y := OPENING + digits + "]" + x;
    assert y[0] == '[';
    if p == "" {
      assert p + y == y;
      HeadOfMarker(digits, x, ids);
      HeadUnfolds(y, ids);
      NothingNamed(ids);
      NothingBefore(Resolved(y, ids));
      NothingBefore(NamedIn(y, ids));
    } else {
      var step, head := ScanHead(p, ids), ScanHead(y, ids);
      HeadStops(p, y, ids);
      HeadUnfolds(p, ids);
      HeadUnfolds(p + y, ids);
      MarkerInside(step.2, digits, x, ids);
      Grouped(step.0, Resolved(step.2, ids), head.0 + Resolved(x, ids));
      Grouped(step.1, NamedIn(step.2, ids), head.1 + NamedIn(x, ids));
    }
  }

  lemma NothingBefore<T>(s: seq<T>)
    ensures [] + s == s
  {
  }

  lemma Grouped<T>(a: seq<T>, b: seq<T>, c: seq<T>)
    ensures a + (b + c) == a + b + c
  {
  }

  /** The marker of number `n` becomes the marker of the `n`th chunk, counted from one, in any
      surrounding text, and that chunk is among the citations. */
  lemma NumberNamesItsChunk(p: string, n: nat, x: string, ids: seq<Uuid>)
    requires 1 <= n <= |ids| <= USIZE_MAX
    ensures var text := p + (OPENING + Decimal(n) + "]" + x);
            && Resolved(text, ids) == Resolved(p, ids) + (OPENING + Format(ids[n - 1]) + "]" + Resolved(x, ids))
            && NamedIn(text, ids) == NamedIn(p, ids) + ([ids[n - 1]] + NamedIn(x, ids))
            && ids[n - 1] in Unique(NamedIn(text, ids) + UuidsIn(Resolved(text, ids)))
  {
    hide IndexMarkerAt, Resolved, NamedIn, UuidsIn, Unique, Format, Decimal, AllDigits, ScanHead, DecimalValue;
    DecimalSpells(n);
    NamesChunk(Decimal(n), n, ids);
    HeadOfMarker(Decimal(n), x, ids);
    hide Named, Replacement;
    MarkerInside(p, Decimal(n), x, ids);
    var text := p + (OPENING + Decimal(n) + "]" + x);
    UniqueIs(NamedIn(text, ids) + UuidsIn(Resolved(text, ids)));
    InMiddle(NamedIn(p, ids), ids[n - 1], NamedIn(x, ids), UuidsIn(Resolved(text, ids)));
  }

  lemma NamesChunk(digits: string, n: nat, ids: seq<Uuid>)
    requires AllDigits(digits) && DecimalValue(digits) == n && 1 <= n <= |ids| <= USIZE_MAX
    ensures Named(digits, ids) == Some(ids[n - 1]) && Replacement(digits, ids) == OPENING + Format(ids[n - 1]) + "]"
  {
  }

  lemma InMiddle<T>(a: seq<T>, x: T, b: seq<T>, c: seq<T>)
    ensures x in a + ([x] + b) + c
  {
    assert (a + ([x] + b) + c)[|a|] == x;
  }

  /** A marker alone. */
  lemma NumberAlone(n: nat, ids: seq<Uuid>)
    requires 1 <= n <= |ids| <= USIZE_MAX
    ensures Resolved("[chunk:" + Decimal(n) + "]", ids) == "[chunk:" + Format(ids[n - 1]) + "]"
  {
    hide Resolved, Format, Decimal;
    NumberNamesItsChunk("", n, "", ids);
    NothingNamed(ids);
    var m := OPENING + Decimal(n) + "]";
    assert "" + (m + "") == m;
  }

  /** Zero, and numbers that no chunk has, stay as they are and name nothing. */
  lemma OtherNumbersStay(p: string, n: nat, x: string, ids: seq<Uuid>)
    requires n == 0 || n > |ids|
    ensures var text := p + (OPENING + Decimal(n) + "]" + x);
            && Resolved(text, ids) == Resolved(p, ids) + (OPENING + Decimal(n) + "]" + Resolved(x, ids))
            && NamedIn(text, ids) == NamedIn(p, ids) + NamedIn(x, ids)
  {
    hide IndexMarkerAt, Resolved, NamedIn, Decimal, ScanHead;
    DecimalSpells(n);
    HeadOfMarker(Decimal(n), x, ids);
    MarkerInside(p, Decimal(n), x, ids);
    NothingBefore(NamedIn(x, ids));
  }

  /** The text form of a UUID: lower-case hexadecimal digits in groups of 8, 4, 4, 4 and 12. */
  lemma FormatIsCanonical(u: Uuid, i: nat)
    requires i < 36
    ensures var c := Format(u)[i];
            if i == 8 || i == 13 || i == 18 || i == 23 then c == '-' else '0' <= c <= '9' || 'a' <= c <= 'f'
  {
    if !HyphenAt(i) { HexIsLower(u[DigitOf(i)]); }
  }

  lemma HexIsLower(n: Nibble)
    ensures '0' <= HexDigit(n) <= '9' || 'a' <= HexDigit(n) <= 'f'
  {
  }
}
