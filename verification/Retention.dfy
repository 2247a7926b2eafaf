/** The orphan scan and the retention report on one snapshot (gmrag_api/src/retrieval/cleanup.rs:241-458,
    gmrag_api/src/retention_report.rs:244-362, 662-725).

    The collection is a sequence of points in scroll order; a point whose payload does not parse is
    None, and a page leaves it out. Parsing ids out of an object key is a given function. */
module Retention {
  import opened Wrappers
  import opened Collections
  import opened Residue

  // ----- Scrolling -----

  function Clamp(limit: nat): (n: nat)
    ensures 1 <= n <= 1000 && (limit <= n || n == 1000) && (n <= limit || n == 1)
  {
    if limit < 1 then 1 else if limit > 1000 then 1000 else limit
  }

  function Readable(points: seq<Option<Pair>>): seq<Pair> {
    if points == [] then [] else (if points[0].Some? then [points[0].value] else []) + Readable(points[1..])
  }

  function End(points: seq<Option<Pair>>, at: nat, size: nat): nat {
    if at + size <= |points| then at + size else |points|
  }

  /** A page: the readable points of the next `size` points, and where the next page starts. */
  function Page(points: seq<Option<Pair>>, at: nat, size: nat): (seq<Pair>, Option<nat>)
    requires at <= |points|
  {
    (Readable(points[at..End(points, at, size)]), if at + size < |points| then Some(at + size) else None)
  }

  /** What a scan sees: it stops after the last page, or at a page without a readable point. */
  function Seen(points: seq<Option<Pair>>, at: nat, size: nat): seq<Pair>
    requires at <= |points| && size > 0
    decreases |points| - at
  {
    var (page, next) := Page(points, at, size);
    if page == [] then [] else page + if next.Some? then Seen(points, next.value, size) else []
  }

  function Scanned(points: seq<Option<Pair>>, pageSize: nat): seq<Pair> {
    Seen(points, 0, Clamp(pageSize))
  }

  /** `scan_vectors`. */
  method ScanVectors(points: seq<Option<Pair>>, pageSize: nat) returns (scanned: seq<Pair>)
    ensures scanned == Scanned(points, pageSize)
  {
    scanned := [];
    var offset: Option<nat> := None;
    var size := Clamp(pageSize);
    var more := true;
    while more
      invariant offset.Some? ==> offset.value <= |points|
      invariant Scanned(points, pageSize)
          == scanned + if more then Seen(points, if offset.Some? then offset.value else 0, size) else []
      decreases more, |points| - if offset.Some? then offset.value else 0
    {
      var at := if offset.Some? then offset.value else 0;
      var (page, next) := Page(points, at, size);
      if page == [] {
        more := false;
      } else {
        assert scanned + (page + if next.Some? then Seen(points, next.value, size) else [])
            == scanned + page + if next.Some? then Seen(points, next.value, size) else [];
        scanned := scanned + page;
        offset := next;
        more := next.Some?;
      }
    }
  }

  lemma {:induction false} ReadableAppends(a: seq<Option<Pair>>, b: seq<Option<Pair>>)
    ensures Readable(a + b) == Readable(a) + Readable(b)
  {
    if a == [] {
      assert a + b == b;
    } else {
      assert (a + b)[1..] == a[1..] + b;
      ReadableAppends(a[1..], b);
      var first := if a[0].Some? then [a[0].value] else [];
      assert first + (Readable(a[1..]) + Readable(b)) == first + Readable(a[1..]) + Readable(b);
    }
  }

  /** A page that starts at `at` hides readable points behind it: it shows none, but some follow. */
  predicate BlindPage(points: seq<Option<Pair>>, at: nat, size: nat) {
    at <= |points| && Readable(points[at..End(points, at, size)]) == [] && Readable(points[at..]) != []
  }

  lemma ReadableByPages(points: seq<Option<Pair>>, at: nat, size: nat)
    requires at <= |points|
    ensures Readable(points[at..])
        == Readable(points[at..End(points, at, size)]) + Readable(points[End(points, at, size)..])
  {
    assert points[at..] == points[at..End(points, at, size)] + points[End(points, at, size)..];
    ReadableAppends(points[at..End(points, at, size)], points[End(points, at, size)..]);
  }

  lemma {:induction false} SeenIsPrefix(points: seq<Option<Pair>>, at: nat, size: nat)
    requires at <= |points| && size > 0
    ensures Seen(points, at, size) <= Readable(points[at..])
    decreases |points| - at
  {
    ReadableByPages(points, at, size);
    var (page, next) := Page(points, at, size);
    hide Readable;
    if page != [] && next.Some? { SeenIsPrefix(points, next.value, size); }
  }

  /** Pages that start at `at` and are full lead to a page that starts at `i`. */
  predicate PageStart(at: nat, i: nat, size: nat)
    requires size > 0
    decreases i - at
  {
    i == at || (at + size <= i && PageStart(at + size, i, size))
  }

  /** No page boundary from `at` on starts a blind page. */
  ghost predicate NoBlindPage(points: seq<Option<Pair>>, at: nat, size: nat)
    requires size > 0
  {
    forall i | PageStart(at, i, size) :: !BlindPage(points, i, size)
  }

  /** A scan from a page boundary sees every readable point if and only if no page boundary ahead
      starts a blind page. */
  lemma {:induction false} SeesAllIff(points: seq<Option<Pair>>, at: nat, size: nat)
    requires at <= |points| && size > 0
    ensures Seen(points, at, size) == Readable(points[at..]) <==> NoBlindPage(points, at, size)
    decreases |points| - at
  {
    hide Readable, NoBlindPage;
    var (page, next) := Page(points, at, size);
    ReadableByPages(points, at, size);
    if page == [] {
      EmptyPageDecides(points, at, size);
    } else if next.Some? {
      SeesAllIff(points, at + size, size);
      LaterPagesDecide(points, at, size);
      SamePrefix(page, Seen(points, at + size, size), Readable(points[at + size..]));
    } else {
      LastPageIsNotBlind(points, at, size);
      assert points[End(points, at, size)..] == [];
      NothingBehindTheEnd();
    }
  }

  lemma SamePrefix<T>(a: seq<T>, x: seq<T>, y: seq<T>)
    ensures a + x == a + y <==> x == y
  {
    if a + x == a + y { assert (a + x)[|a|..] == x && (a + y)[|a|..] == y; }
  }

  lemma EmptyPageDecides(points: seq<Option<Pair>>, at: nat, size: nat)
    requires at <= |points| && size > 0 && Readable(points[at..End(points, at, size)]) == []
    ensures NoBlindPage(points, at, size) <==> Readable(points[at..]) == []
  {
    hide Readable;
    assert PageStart(at, at, size);
    if Readable(points[at..]) == [] {
      forall i: nat | PageStart(at, i, size) ensures !BlindPage(points, i, size) {
        StartsAhead(at, i, size);
        if i <= |points| { NothingLater(points, at, i); }
      }
    } else {
      assert BlindPage(points, at, size);
    }
  }

  lemma LaterPagesDecide(points: seq<Option<Pair>>, at: nat, size: nat)
    requires at + size < |points| && size > 0 && Readable(points[at..End(points, at, size)]) != []
    ensures NoBlindPage(points, at, size) <==> NoBlindPage(points, at + size, size)
  {
    hide Readable;
    forall i: nat | PageStart(at + size, i, size) ensures PageStart(at, i, size) { StartsAhead(at + size, i, size); }
    assert !BlindPage(points, at, size);
  }

  lemma LastPageIsNotBlind(points: seq<Option<Pair>>, at: nat, size: nat)
    requires at <= |points| <= at + size && size > 0 && Readable(points[at..End(points, at, size)]) != []
    ensures NoBlindPage(points, at, size)
  {
    hide Readable;
    NothingBehindTheEnd();
    forall i: nat | PageStart(at, i, size) ensures !BlindPage(points, i, size) {
      if i != at {
        StartsAhead(at + size, i, size);
        assert i <= |points| ==> points[i..] == [];
      }
    }
  }

  lemma {:induction false} StartsAhead(at: nat, i: nat, size: nat)
    requires size > 0 && PageStart(at, i, size)
    ensures at <= i
    decreases i - at
  {
  }

  lemma NothingBehindTheEnd()
    ensures Readable([]) == []
  {
  }

  lemma NothingLater(points: seq<Option<Pair>>, at: nat, i: nat)
    requires at <= i <= |points| && Readable(points[at..]) == []
    ensures Readable(points[i..]) == []
  {
    assert points[at..] == points[at..i] + points[i..];
    ReadableAppends(points[at..i], points[i..]);
  }

  /** The exact condition for a scan to be complete: no page of unreadable points has a readable
      point anywhere behind it. */
  lemma ScanIsCompleteIff(points: seq<Option<Pair>>, pageSize: nat)
    ensures Scanned(points, pageSize) == Readable(points) <==> NoBlindPage(points, 0, Clamp(pageSize))
  {
    assert points[0..] == points;
    SeesAllIff(points, 0, Clamp(pageSize));
  }

  /** A blind page ahead of which there is no other cuts the scan off: it sees what is readable
      before that page. */
  lemma {:induction false} SeenUpToBlindPage(points: seq<Option<Pair>>, at: nat, size: nat, i: nat)
    requires at <= |points| && size > 0 && PageStart(at, i, size) && BlindPage(points, i, size)
    requires forall j: nat | j < i && PageStart(at, j, size) :: !BlindPage(points, j, size)
    ensures at <= i <= |points| && Seen(points, at, size) == Readable(points[at..i])
    decreases i - at
  {
    hide Readable, PageStart;
    StartsAhead(at, i, size);
    if at == i {
      NothingBehindTheEnd();
      assert points[at..at] == [];
    } else {
      PagesAhead(points, at, size, i);
      SeenUpToBlindPage(points, at + size, size, i);
      assert points[at..i] == points[at..at + size] + points[at + size..i];
      ReadableAppends(points[at..at + size], points[at + size..i]);
    }
  }

  lemma PagesAhead(points: seq<Option<Pair>>, at: nat, size: nat, i: nat)
    requires at < i <= |points| && size > 0 && PageStart(at, i, size) && BlindPage(points, i, size)
    requires forall j: nat | j < i && PageStart(at, j, size) :: !BlindPage(points, j, size)
    ensures at + size <= i && PageStart(at + size, i, size) && i < |points|
    ensures forall j: nat | j < i && PageStart(at + size, j, size) :: !BlindPage(points, j, size)
    ensures End(points, at, size) == at + size && Readable(points[at..at + size]) != []
  {
    hide Readable;
    NothingBehindTheEnd();
    var tail := points[i..];
    assert tail == [] || |tail| > 0;
    StartsAhead(at + size, i, size);
    if Readable(points[at..]) == [] { NothingLater(points, at, i); }
    assert PageStart(at, at, size) && !BlindPage(points, at, size);
    forall j: nat | j < i && PageStart(at + size, j, size) ensures !BlindPage(points, j, size) {
      StartsAhead(at + size, j, size);
      assert PageStart(at, j, size);
    }
  }

  /** What a scan that is not complete sees: the readable points before the first blind page. */
  lemma ScannedUpToBlindPage(points: seq<Option<Pair>>, pageSize: nat, i: nat)
    requires PageStart(0, i, Clamp(pageSize)) && BlindPage(points, i, Clamp(pageSize))
    requires forall j: nat | j < i && PageStart(0, j, Clamp(pageSize)) :: !BlindPage(points, j, Clamp(pageSize))
    ensures Scanned(points, pageSize) == Readable(points[..i])
  {
    SeenUpToBlindPage(points, 0, Clamp(pageSize), i);
    assert points[0..i] == points[..i];
  }

  /** One page of unreadable points cuts the scan off from everything behind it. */
  lemma UnreadablePageHidesPoints(p: Pair)
    ensures Scanned([None, Some(p)], 1) == [] && Readable([None, Some(p)]) == [p]
  {
    var points: seq<Option<Pair>> := [None, Some(p)];
    var first: seq<Option<Pair>> := [None];
    assert points[0..1] == first && first[1..] == [];
    assert points[1..] == [Some(p)] && [Some(p)][1..] == [];
    assert Readable(first) == [];
  }

  // ----- The orphan scan -----

  datatype Inventory = Inventory(workspaces: set<Id>, documents: set<Pair>, objectKeys: set<string>)

  predicate Live(inv: Inventory, p: Pair) {
    p.workspace in inv.workspaces && p in inv.documents
  }

  datatype DeleteTarget =
    | TargetDocument(pair: Pair)
    | TargetWorkspace(workspace: Id)
    | TargetWorkspaces(workspaces: seq<Id>)

  /** What a target deletes: all points of the document, or of the workspaces. */
  predicate Covers(t: DeleteTarget, p: Pair) {
    match t
    case TargetDocument(pair) => pair == p
    case TargetWorkspace(workspace) => workspace == p.workspace
    case TargetWorkspaces(workspaces) => p.workspace in workspaces
  }

  predicate Targeted(targets: seq<DeleteTarget>, p: Pair) {
    exists i | 0 <= i < |targets| :: Covers(targets[i], p)
  }

  /** The points left once every target was deleted. */
  function AfterDeletes(points: seq<Option<Pair>>, targets: seq<DeleteTarget>): seq<Option<Pair>> {
    if points == [] then []
    else
      (if points[0].Some? && Targeted(targets, points[0].value) then [] else [points[0]])
      + AfterDeletes(points[1..], targets)
  }

  /** The loop of `collect_targets_from_full_scan`, over what the pages show. */
  method CollectOrphans(scanned: seq<Pair>, inv: Inventory) returns (orphanWorkspaces: set<Id>,
          orphanDocuments: set<Pair>)
    ensures forall w ::
              w in orphanWorkspaces <==>
              w !in inv.workspaces && exists i | 0 <= i < |scanned| :: scanned[i].workspace == w
    ensures forall p :: p in orphanDocuments <==> p in scanned && p.workspace in inv.workspaces && p !in inv.documents
  {
    orphanWorkspaces, orphanDocuments := {}, {};
    for k := 0 to |scanned|
      invariant forall w ::
                  w in orphanWorkspaces <==>
                  w !in inv.workspaces && exists i | 0 <= i < k :: scanned[i].workspace == w
      invariant forall p ::
                  p in orphanDocuments <==>
                  p in scanned[..k] && p.workspace in inv.workspaces && p !in inv.documents
    {
      assert scanned[..k + 1] == scanned[..k] + [scanned[k]];
      var point := scanned[k];
      if point.workspace !in inv.workspaces {
        orphanWorkspaces := orphanWorkspaces + {point.workspace};
      } else if point !in inv.documents {
        orphanDocuments := orphanDocuments + {point};
      }
    }
    assert scanned[..|scanned|] == scanned;
  }

  /** A target names an orphaned workspace, or an orphaned document of a live one, that was seen; and
      each of these has its target. */
  ghost predicate TargetsAreOrphans(targets: seq<DeleteTarget>, scanned: seq<Pair>, inv: Inventory) {
    && Distinct(targets)
    && (forall t | t in targets :: !t.TargetWorkspaces?)
    && (forall w ::
          TargetWorkspace(w) in targets <==>
          w !in inv.workspaces && exists i | 0 <= i < |scanned| :: scanned[i].workspace == w)
    && (forall p ::
          TargetDocument(p) in targets <==>
          p in scanned && p.workspace in inv.workspaces && p !in inv.documents)
  }

  function Targets(workspaces: seq<Id>, documents: seq<Pair>): seq<DeleteTarget> {
    seq(|workspaces|, i requires 0 <= i < |workspaces| => TargetWorkspace(workspaces[i]))
    + seq(|documents|, i requires 0 <= i < |documents| => TargetDocument(documents[i]))
  }

  lemma TargetsAre(workspaces: seq<Id>, documents: seq<Pair>)
    requires Distinct(workspaces) && Distinct(documents)
    ensures var targets := Targets(workspaces, documents);
            && Distinct(targets)
            && (forall t | t in targets :: !t.TargetWorkspaces?)
            && (forall w :: TargetWorkspace(w) in targets <==> w in workspaces)
            && (forall p :: TargetDocument(p) in targets <==> p in documents)
  {
    var targets := Targets(workspaces, documents);
    forall w | w in workspaces ensures TargetWorkspace(w) in targets {
      var i :| 0 <= i < |workspaces| && workspaces[i] == w;
      assert targets[i] == TargetWorkspace(w);
    }
    forall p | p in documents ensures TargetDocument(p) in targets {
      var i :| 0 <= i < |documents| && documents[i] == p;
      assert targets[|workspaces| + i] == TargetDocument(p);
    }
  }

  /** `collect_targets_from_full_scan`. */
  method CollectTargetsFromFullScan(points: seq<Option<Pair>>, pageSize: nat, inv: Inventory)
    returns (targets: seq<DeleteTarget>)
    ensures TargetsAreOrphans(targets, Scanned(points, pageSize), inv)
  {
    var scanned := ScanVectors(points, pageSize);
    var orphanWorkspaces, orphanDocuments := CollectOrphans(scanned, inv);
    var workspaces := Listing(orphanWorkspaces);
    var documents := Listing(orphanDocuments);
    targets := Targets(workspaces, documents);
    TargetsAre(workspaces, documents);
  }

  /** The targets cover exactly the pairs that the scan saw and that are not live. */
  lemma TargetsCoverOrphans(targets: seq<DeleteTarget>, scanned: seq<Pair>, inv: Inventory, p: Pair)
    requires TargetsAreOrphans(targets, scanned, inv)
    ensures Live(inv, p) ==> !Targeted(targets, p)
    ensures p in scanned ==> (Targeted(targets, p) <==> !Live(inv, p))
  {
    if Targeted(targets, p) {
      var i :| 0 <= i < |targets| && Covers(targets[i], p);
      assert targets[i] in targets;
    }
    if p in scanned && !Live(inv, p) {
      var t := if p.workspace !in inv.workspaces then TargetWorkspace(p.workspace) else TargetDocument(p);
      var k :| 0 <= k < |scanned| && scanned[k] == p;
      assert t in targets;
      var i :| 0 <= i < |targets| && targets[i] == t;
      assert Covers(targets[i], p);
    }
  }

  function LivePoints(points: seq<Option<Pair>>, inv: Inventory): seq<Option<Pair>> {
    if points == [] then []
    else (if points[0].Some? && !Live(inv, points[0].value) then [] else [points[0]]) + LivePoints(points[1..], inv)
  }

  lemma {:induction false} LivePointsAreKept(points: seq<Option<Pair>>, targets: seq<DeleteTarget>, inv: Inventory)
    requires forall p | Live(inv, p) :: !Targeted(targets, p)
    ensures |LivePoints(points, inv)| <= |AfterDeletes(points, targets)|
  {
    hide Targeted, Live;
    if points != [] { LivePointsAreKept(points[1..], targets, inv); }
  }

  predicate AllOrphansTargeted(points: seq<Option<Pair>>, targets: seq<DeleteTarget>, inv: Inventory) {
    forall i | 0 <= i < |points| && points[i].Some? && !Live(inv, points[i].value) :: Targeted(targets, points[i].value)
  }

  /** Deletes that spare live points leave nothing else exactly when every other point is targeted. */
  lemma {:induction false} DeletesLeaveIff(points: seq<Option<Pair>>, targets: seq<DeleteTarget>, inv: Inventory)
    requires forall p | Live(inv, p) :: !Targeted(targets, p)
    ensures AfterDeletes(points, targets) == LivePoints(points, inv)
       <==> AllOrphansTargeted(points, targets, inv)
  {
    hide Targeted, Live;
    if points != [] {
      var rest := points[1..];
      DeletesLeaveIff(rest, targets, inv);
      LivePointsAreKept(rest, targets, inv);
      FirstAndRest(points, targets, inv);
      var x, live, kept := points[0], LivePoints(rest, inv), AfterDeletes(rest, targets);
      if x.None? || Live(inv, x.value) {
        SamePrefix([x], kept, live);
      } else if !Targeted(targets, x.value) {
        assert |[x] + kept| > |live|;
      } else {
        assert [] + kept == kept && [] + live == live;
      }
    }
  }

  lemma FirstAndRest(points: seq<Option<Pair>>, targets: seq<DeleteTarget>, inv: Inventory)
    requires points != []
    ensures AllOrphansTargeted(points, targets, inv)
       <==> (points[0].Some? && !Live(inv, points[0].value) ==> Targeted(targets, points[0].value))
            && AllOrphansTargeted(points[1..], targets, inv)
  {
    hide Targeted, Live;
    var rest := points[1..];
    if AllOrphansTargeted(points, targets, inv) {
      forall i | 0 <= i < |rest| && rest[i].Some? && !Live(inv, rest[i].value)
        ensures Targeted(targets, rest[i].value) {
        assert points[i + 1] == rest[i];
      }
    }
    if AllOrphansTargeted(rest, targets, inv) {
      forall i | 1 <= i < |points| && points[i].Some? && !Live(inv, points[i].value)
        ensures Targeted(targets, points[i].value) {
        assert rest[i - 1] == points[i];
      }
    }
  }

  lemma {:induction false} ReadableHas(points: seq<Option<Pair>>, i: nat)
    requires i < |points| && points[i].Some?
    ensures points[i].value in Readable(points)
  {
    if i > 0 { ReadableHas(points[1..], i - 1); }
  }

  /** A workspace that is gone, and of which the scan saw some point. */
  predicate DeadWorkspaceSeen(scanned: seq<Pair>, inv: Inventory, workspace: Id) {
    workspace !in inv.workspaces && exists k | 0 <= k < |scanned| :: scanned[k].workspace == workspace
  }

  /** What the targets of a scan cover: pairs that are not live, and were seen themselves or belong to
      a dead workspace of which anything was seen. */
  lemma TargetedIff(targets: seq<DeleteTarget>, scanned: seq<Pair>, inv: Inventory, p: Pair)
    requires TargetsAreOrphans(targets, scanned, inv)
    ensures Targeted(targets, p) <==> !Live(inv, p) && (p in scanned || DeadWorkspaceSeen(scanned, inv, p.workspace))
  {
    TargetsCoverOrphans(targets, scanned, inv, p);
    if Targeted(targets, p) {
      var i :| 0 <= i < |targets| && Covers(targets[i], p);
      assert targets[i] in targets;
      assert targets[i] == TargetDocument(p) || targets[i] == TargetWorkspace(p.workspace);
    }
    if DeadWorkspaceSeen(scanned, inv, p.workspace) {
      assert TargetWorkspace(p.workspace) in targets;
      var i :| 0 <= i < |targets| && targets[i] == TargetWorkspace(p.workspace);
      assert Covers(targets[i], p);
    }
  }

  /** The exact condition for the deletes to leave precisely the live points (and those whose payload
      says nothing): every point that is not live was seen, or lies in a dead workspace that was seen
      somewhere. */
  lemma DeletingLeavesLiveIff(points: seq<Option<Pair>>, pageSize: nat, inv: Inventory, targets: seq<DeleteTarget>)
    requires TargetsAreOrphans(targets, Scanned(points, pageSize), inv)
    ensures var sc := Scanned(points, pageSize);
            AfterDeletes(points, targets) == LivePoints(points, inv)
            <==> forall i | 0 <= i < |points| && points[i].Some? && !Live(inv, points[i].value) ::
                   points[i].value in sc || DeadWorkspaceSeen(sc, inv, points[i].value.workspace)
  {
    var sc := Scanned(points, pageSize);
    hide TargetsAreOrphans, Scanned, Targeted, Live, DeadWorkspaceSeen, AfterDeletes, LivePoints;
    forall p ensures Targeted(targets, p) <==> !Live(inv, p) && (p in sc || DeadWorkspaceSeen(sc, inv, p.workspace)) {
      TargetedIff(targets, sc, inv, p);
    }
    DeletesLeaveIff(points, targets, inv);
  }

  /** In particular after a complete scan. */
  lemma DeletingLeavesLivePoints(points: seq<Option<Pair>>, pageSize: nat, inv: Inventory, targets: seq<DeleteTarget>)
    requires TargetsAreOrphans(targets, Scanned(points, pageSize), inv)
    requires NoBlindPage(points, 0, Clamp(pageSize))
    ensures AfterDeletes(points, targets) == LivePoints(points, inv)
  {
    ScanIsCompleteIff(points, pageSize);
    DeletingLeavesLiveIff(points, pageSize, inv, targets);
    hide TargetsAreOrphans, Readable, Scanned, Targeted, Live, NoBlindPage;
    forall i | 0 <= i < |points| && points[i].Some? ensures points[i].value in Scanned(points, pageSize) {
      ReadableHas(points, i);
    }
  }

  /** A page of unreadable points saves a dead workspace behind it from the deletes. */
  lemma DeletesMissHiddenPoint(p: Pair, inv: Inventory)
    requires p.workspace !in inv.workspaces
    ensures TargetsAreOrphans([], Scanned([None, Some(p)], 1), inv)
    ensures AfterDeletes([None, Some(p)], []) == [None, Some(p)] && LivePoints([None, Some(p)], inv) == [None]
    ensures forall targets | TargetsAreOrphans(targets, Scanned([None, Some(p)], 1), inv) ::
              AfterDeletes([None, Some(p)], targets) != LivePoints([None, Some(p)], inv)
  {
    var points: seq<Option<Pair>> := [None, Some(p)];
    UnreadablePageHidesPoints(p);
    var behind: seq<Option<Pair>> := [Some(p)];
    assert points[1..] == behind && behind[1..] == [] && !Live(inv, p) && !Targeted([], p);
    assert LivePoints(behind[1..], inv) == [] && AfterDeletes(behind[1..], []) == [];
    assert LivePoints(behind, inv) == [] && AfterDeletes(behind, []) == behind;
    hide Scanned;
    forall targets | TargetsAreOrphans(targets, Scanned(points, 1), inv)
      ensures AfterDeletes(points, targets) != LivePoints(points, inv)
    {
      assert points[1] == Some(p) && !Live(inv, p);
      DeletingLeavesLiveIff(points, 1, inv, targets);
    }
  }
}
