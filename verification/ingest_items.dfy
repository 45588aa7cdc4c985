/** `ingest_items`: a batch received from a feeding service is filtered,
    every plain item is ingested, then every package, after its references
    have been pointed at the ingested items.  `ingest_item` is an oracle. */
module IngestItems {
  import opened Base
  import opened IngestProvider
  import opened IngestFilter

  /** `doc.get('type') == 'composite'`. */
  predicate IsComposite(d: IngestDoc) {
    d.itemType == Some("composite")
  }

  /** The plain (non-package) documents of `s`, in their order. */
  function Plain(s: seq<IngestDoc>): (r: seq<IngestDoc>)
    ensures forall d :: d in r <==> d in s && !IsComposite(d)
  {
    if s == [] then []
    else
      var front := s[..|s| - 1];
      assert forall d :: d in s <==> d in front || d == s[|s| - 1];
      Plain(front) + (if IsComposite(s[|s| - 1]) then [] else [s[|s| - 1]])
  }

  /** What `ingest_item` hands back: a pair `(ingested, ids)`, together with
      the `_id` and the `renditions` it assigns in the shared document (`None`
      where it assigns nothing), or, when it caught an exception, a bare
      `False`. */
  datatype IngestOutcome =
    | Returned(ingested: bool, ids: seq<string>, assignedId: Option<string>, assignedRenditions: Option<map<string, string>>)
    | BareFalse

  /** The oracle standing for `ingest_item`: the number of the call, the
      document and whether the provider's routing scheme is passed. */
  type Ingest = (nat, IngestDoc, bool) -> IngestOutcome

  /** One call of `ingest_item`. */
  datatype Call = Call(doc: IngestDoc, withRouting: bool)

  /** The filter raised, or a bare `False` could not be unpacked into a pair. */
  datatype IngestError = FilterFailed | UnpackFailed

  /** The state of a run: the received documents as they are now (ids
      assigned, references rewritten), `failed_items`, `created_ids`, and the
      calls made so far. */
  datatype Run = Run(docs: seq<IngestDoc>, failed: set<string>, created: seq<string>, calls: seq<Call>)

  /** The `residRef` of every reference of a package that has one. */
  function ResidRefs(refs: seq<Ref>): (r: seq<string>)
    ensures forall g :: g in r <==> exists j :: 0 <= j < |refs| && refs[j].residRef == Some(g)
  {
    if refs == [] then []
    else
      var rest := ResidRefs(refs[1..]);
      assert forall j :: 0 < j < |refs| ==> refs[j] == refs[1..][j - 1];
      if refs[0].residRef.Some? then [refs[0].residRef.value] + rest else rest
  }

  /** `items_in_package` after its loop over the first `n` documents: the
      variable is reassigned for every package, so only the last one counts. */
  function PackageRefs(docs: seq<IngestDoc>, n: nat): seq<string>
    requires n <= |docs|
  {
    if n == 0 then []
    else if IsComposite(docs[n - 1]) then ResidRefs(docs[n - 1].refs)
    else PackageRefs(docs, n - 1)
  }

  /** `items_dict.get(guid)`: the last received document with that guid. */
  function Lookup(docs: seq<IngestDoc>, guid: string): (r: Option<IngestDoc>)
    ensures r.Some? ==> r.value in docs && r.value.guid == guid
    ensures r.Some? ==> exists i :: 0 <= i < |docs| && docs[i] == r.value && forall j :: i < j < |docs| ==> docs[j].guid != guid
    ensures r.None? ==> forall d :: d in docs ==> d.guid != guid
  {
    if docs == [] then None
    else if docs[|docs| - 1].guid == guid then Some(docs[|docs| - 1])
    else
      var front := docs[..|docs| - 1];
      assert forall d :: d in docs ==> d in front || d == docs[|docs| - 1];
      assert forall j :: 0 <= j < |front| ==> front[j] == docs[j];
      Lookup(front, guid)
  }

  /** The `setdefault`s and assignments applied to a reference whose target
      has not failed; `target` is the document the reference names. */
  function RewriteRef(r: Ref, target: Option<IngestDoc>): (r': Ref)
    requires r.residRef.Some?
    ensures r'.guid == r.residRef
    ensures r.location.Some? ==> r'.location == r.location
    ensures r.location.None? ==> r'.location == Some("ingest")
    ensures r.renditions.Some? ==> r'.renditions == r.renditions
    ensures r.renditions.None? ==>
      r'.renditions == (if target.Some? && target.value.renditions.Some? && |target.value.renditions.value| > 0
                        then target.value.renditions else None)
    ensures target.None? ==> r'.residRef == r.residRef
    ensures target.Some? ==> r'.residRef == target.value.id
  {
    var location := if r.location.Some? then r.location else Some("ingest");
    var renditions :=
      if r.renditions.None? && target.Some? && target.value.renditions.Some? && |target.value.renditions.value| > 0
      then target.value.renditions else r.renditions;
    var residRef := if target.Some? then target.value.id else r.residRef;
    Ref(residRef, r.residRef, location, renditions)
  }

  /** A package with its references after the reference loop, and `failed_items`. */
  datatype Rewritten = Rewritten(doc: IngestDoc, failed: set<string>)

  /** The reference loop of one package over its first `j` references.
      `docs` are the documents as the lookups see them. */
  function RewriteRefs(doc: IngestDoc, docs: seq<IngestDoc>, failed: set<string>, j: nat): (w: Rewritten)
    requires j <= |doc.refs|
    ensures w.doc == doc.(refs := w.doc.refs) && |w.doc.refs| == |doc.refs|
  {
    if j == 0 then Rewritten(doc, failed)
    else
      var w := RewriteRefs(doc, docs, failed, j - 1);
      var r := w.doc.refs[j - 1];
      if r.residRef.None? then w
      else if r.residRef.value in w.failed then Rewritten(w.doc, w.failed + {doc.guid})
      else Rewritten(w.doc.(refs := w.doc.refs[j - 1 := RewriteRef(r, Lookup(docs, r.residRef.value))]), w.failed)
  }

  /** The reference loop changes only references already visited, fails the
      package exactly when a visited reference names a failed item, and
      rewrites every other visited reference. */
  lemma {:induction false} RewriteRefsSpec(doc: IngestDoc, docs: seq<IngestDoc>, failed: set<string>, j: nat)
    requires j <= |doc.refs|
    ensures var w := RewriteRefs(doc, docs, failed, j);
      && (forall i :: j <= i < |doc.refs| ==> w.doc.refs[i] == doc.refs[i])
      && failed <= w.failed <= failed + {doc.guid}
      && (doc.guid in w.failed <==>
            doc.guid in failed || exists i :: 0 <= i < j && doc.refs[i].residRef.Some? && doc.refs[i].residRef.value in failed)
      && (forall i :: 0 <= i < j && doc.refs[i].residRef.Some? && doc.refs[i].residRef.value in failed ==>
            w.doc.refs[i] == doc.refs[i])
      && (forall i :: 0 <= i < j && doc.refs[i].residRef.Some? && doc.refs[i].residRef.value !in w.failed ==>
            w.doc.refs[i] == RewriteRef(doc.refs[i], Lookup(docs, doc.refs[i].residRef.value)))
  {
    RewriteRefsFailed(doc, docs, failed, j);
    if j > 0 {
      RewriteRefsSpec(doc, docs, failed, j - 1);
      var w := RewriteRefs(doc, docs, failed, j - 1);
      var r := w.doc.refs[j - 1];
      assert r == doc.refs[j - 1];
      var w' := RewriteRefs(doc, docs, failed, j);
      if r.residRef.Some? && r.residRef.value !in w.failed {
        assert w'.failed == w.failed;
        forall i | 0 <= i < j - 1 ensures w'.doc.refs[i] == w.doc.refs[i] { }
      } else {
        assert w'.doc == w.doc;
      }
    }
  }

  /** The part of RewriteRefsSpec about the references not yet visited and
      `failed_items`. */
  lemma {:induction false} RewriteRefsFailed(doc: IngestDoc, docs: seq<IngestDoc>, failed: set<string>, j: nat)
    requires j <= |doc.refs|
    ensures var w := RewriteRefs(doc, docs, failed, j);
      && (forall i :: j <= i < |doc.refs| ==> w.doc.refs[i] == doc.refs[i])
      && failed <= w.failed <= failed + {doc.guid}
      && (doc.guid in w.failed <==>
            doc.guid in failed || exists i :: 0 <= i < j && doc.refs[i].residRef.Some? && doc.refs[i].residRef.value in failed)
  {
    if j > 0 {
      RewriteRefsFailed(doc, docs, failed, j - 1);
      var w := RewriteRefs(doc, docs, failed, j - 1);
      assert w.doc.refs[j - 1] == doc.refs[j - 1];
    }
  }

  /** The document `d` as a returned call of `ingest_item` leaves it: the
      `_id` and the `renditions` it assigned, everything else as it was. */
  function Assigned(d: IngestDoc, out: IngestOutcome): (d': IngestDoc)
    requires out.Returned?
    ensures d'.guid == d.guid && d'.itemType == d.itemType && d'.refs == d.refs
    ensures d'.id == (if out.assignedId.Some? then out.assignedId else d.id)
    ensures d'.renditions == (if out.assignedRenditions.Some? then out.assignedRenditions else d.renditions)
  {
    d.(id := if out.assignedId.Some? then out.assignedId else d.id,
       renditions := if out.assignedRenditions.Some? then out.assignedRenditions else d.renditions)
  }

  /** The routing flag and the bookkeeping of one returned call. */
  function Record(run: Run, k: nat, d: IngestDoc, withRouting: bool, out: IngestOutcome): Run
    requires k < |run.docs| && out.Returned?
  {
    Run(run.docs[k := Assigned(d, out)],
        if out.ingested then run.failed else run.failed + {d.guid},
        if out.ingested then run.created + out.ids else run.created,
        run.calls + [Call(d, withRouting)])
  }

  /** The first loop over the plain (non-package) documents among the first
      `n`, starting from `start`. */
  function PlainPhase(start: Run, pkg: seq<string>, ingest: Ingest, n: nat): (r: Result<Run, IngestError>)
    requires n <= |start.docs|
    ensures r.Ok? ==> |r.value.docs| == |start.docs|
  {
    if n == 0 then Ok(start)
    else match PlainPhase(start, pkg, ingest, n - 1)
      case Err(e) => Err(e)
      case Ok(run) =>
        if IsComposite(start.docs[n - 1]) then Ok(run)
        else
          var d := run.docs[n - 1];
          var withRouting := d.guid !in pkg;
          var out := ingest(|run.calls|, d, withRouting);
          if out.BareFalse? then Err(UnpackFailed) else Ok(Record(run, n - 1, d, withRouting, out))
  }

  /** One package: its references are rewritten, then it is ingested unless
      it has failed. */
  function PackageStep(run: Run, k: nat, ingest: Ingest): (r: Result<Run, IngestError>)
    requires k < |run.docs|
    ensures r.Ok? ==> |r.value.docs| == |run.docs|
  {
    var doc := run.docs[k];
    var w := RewriteRefs(doc, run.docs, run.failed, |doc.refs|);
    var run' := run.(docs := run.docs[k := w.doc], failed := w.failed);
    if doc.guid in w.failed then Ok(run')
    else
      var out := ingest(|run'.calls|, w.doc, true);
      if out.BareFalse? then Err(UnpackFailed) else Ok(Record(run', k, w.doc, true, out))
  }

  /** The second loop, over the packages among the first `n` documents;
      `kinds` are the documents as received, which decide what is a package. */
  function PackagePhase(start: Run, kinds: seq<IngestDoc>, ingest: Ingest, n: nat): (r: Result<Run, IngestError>)
    requires n <= |kinds| == |start.docs|
    ensures r.Ok? ==> |r.value.docs| == |start.docs|
  {
    if n == 0 then Ok(start)
    else match PackagePhase(start, kinds, ingest, n - 1)
      case Err(e) => Err(e)
      case Ok(run) =>
        if !IsComposite(kinds[n - 1]) then Ok(run)
        else PackageStep(run, n - 1, ingest)
  }

  /** `ingest_items` over a whole batch; the final `bulk_insert` into the
      search backend is I/O and not part of the result. */
  function IngestItemsRun(p: Provider, items: seq<IngestDoc>, now: int, defaultMinutes: int, ingest: Ingest): Result<Run, IngestError> {
    match FilterExpiredItems(p, items, now, defaultMinutes)
    case Err(_) => Err(FilterFailed)
    case Ok(docs) =>
      match PlainPhase(Run(docs, {}, [], []), PackageRefs(docs, |docs|), ingest, |docs|)
      case Err(e) => Err(e)
      case Ok(run) => PackagePhase(run, docs, ingest, |docs|)
  }

  /** `ingest_items`, loop by loop, against IngestItemsRun. */
  method IngestItems(p: Provider, items: seq<IngestDoc>, now: int, defaultMinutes: int, ingest: Ingest)
    returns (r: Result<Run, IngestError>)
    ensures r == IngestItemsRun(p, items, now, defaultMinutes, ingest)
  {
    var filtered := FilterExpiredItems(p, items, now, defaultMinutes);
    if filtered.Err? {
      return Err(FilterFailed);
    }
    var all := filtered.value;
    var itemsInPackage: seq<string> := [];
    for k := 0 to |all|
      invariant itemsInPackage == PackageRefs(all, k)
    {
      if IsComposite(all[k]) {
        itemsInPackage := ResidRefs(all[k].refs);
      }
    }
    var plain := IngestPlainItems(Run(all, {}, [], []), itemsInPackage, ingest);
    if plain.Err? {
      return plain;
    }
    r := IngestPackages(plain.value, all, ingest);
  }

  /** The first loop: every plain document is ingested, with the routing
      scheme unless a package refers to it. */
  method IngestPlainItems(start: Run, pkg: seq<string>, ingest: Ingest) returns (r: Result<Run, IngestError>)
    ensures r == PlainPhase(start, pkg, ingest, |start.docs|)
  {
    var docs, failed, created, calls := start.docs, start.failed, start.created, start.calls;
    for k := 0 to |start.docs|
      invariant PlainPhase(start, pkg, ingest, k) == Ok(Run(docs, failed, created, calls))
    {
      if !IsComposite(start.docs[k]) {
        var item := docs[k];
        var withRouting := item.guid !in pkg;
        var out := ingest(|calls|, item, withRouting);
        if out.BareFalse? {
          PlainPhaseErrPersists(start, pkg, ingest, k + 1);
          return Err(UnpackFailed);
        }
        if out.ingested {
          created := created + out.ids;
        } else {
          failed := failed + {item.guid};
        }
        calls := calls + [Call(item, withRouting)];
        docs := docs[k := Assigned(item, out)];
      }
    }
    r := Ok(Run(docs, failed, created, calls));
  }

  /** The second loop: the references of every package are rewritten, and
      the package is ingested unless it refers to a failed item. */
  method IngestPackages(middle: Run, kinds: seq<IngestDoc>, ingest: Ingest) returns (r: Result<Run, IngestError>)
    requires |kinds| == |middle.docs|
    ensures r == PackagePhase(middle, kinds, ingest, |kinds|)
  {
    var docs, failed, created, calls := middle.docs, middle.failed, middle.created, middle.calls;
    for k := 0 to |kinds|
      invariant |docs| == |kinds|
      invariant PackagePhase(middle, kinds, ingest, k) == Ok(Run(docs, failed, created, calls))
    {
      if IsComposite(kinds[k]) {
        var w := RewritePackageRefs(docs[k], docs, failed);
        var item := w.doc;
        failed := w.failed;
        docs := docs[k := item];
        if item.guid !in failed {
          var out := ingest(|calls|, item, true);
          if out.BareFalse? {
            PackagePhaseErrPersists(middle, kinds, ingest, k + 1);
            return Err(UnpackFailed);
          }
          if out.ingested {
            created := created + out.ids;
          } else {
            failed := failed + {item.guid};
          }
          calls := calls + [Call(item, true)];
          docs := docs[k := Assigned(item, out)];
        }
      }
    }
    r := Ok(Run(docs, failed, created, calls));
  }

  /** The reference loop of one package. */
  method RewritePackageRefs(doc: IngestDoc, docs: seq<IngestDoc>, failed0: set<string>) returns (w: Rewritten)
    ensures w == RewriteRefs(doc, docs, failed0, |doc.refs|)
  {
    var item := doc;
    var failed := failed0;
    var j := 0;
    while j < |item.refs|
      invariant j <= |doc.refs| && |item.refs| == |doc.refs|
      invariant RewriteRefs(doc, docs, failed0, j) == Rewritten(item, failed)
    {
      var ref := item.refs[j];
      if ref.residRef.Some? {
        if ref.residRef.value in failed {
          failed := failed + {doc.guid};
        } else {
          item := item.(refs := item.refs[j := RewriteRef(ref, Lookup(docs, ref.residRef.value))]);
        }
      }
      j := j + 1;
    }
    w := Rewritten(item, failed);
  }

  lemma {:induction false} PlainPhaseErrPersists(start: Run, pkg: seq<string>, ingest: Ingest, n: nat)
    requires n <= |start.docs| && PlainPhase(start, pkg, ingest, n).Err?
    ensures PlainPhase(start, pkg, ingest, |start.docs|) == PlainPhase(start, pkg, ingest, n)
    decreases |start.docs| - n
  {
    if n < |start.docs| {
      PlainPhaseErrPersists(start, pkg, ingest, n + 1);
    }
  }

  lemma {:induction false} PackagePhaseErrPersists(start: Run, kinds: seq<IngestDoc>, ingest: Ingest, n: nat)
    requires n <= |kinds| == |start.docs| && PackagePhase(start, kinds, ingest, n).Err?
    ensures PackagePhase(start, kinds, ingest, |kinds|) == PackagePhase(start, kinds, ingest, n)
    decreases |kinds| - n
  {
    if n < |kinds| {
      PackagePhaseErrPersists(start, kinds, ingest, n + 1);
    }
  }

  // ---------------------------------------------------------------------
  // Properties

  /** The documents keep their guid, type and number through a run. */
  predicate SameDocs(a: seq<IngestDoc>, b: seq<IngestDoc>) {
    |a| == |b| && forall k :: 0 <= k < |a| ==> a[k].guid == b[k].guid && a[k].itemType == b[k].itemType
  }

  /** The first loop over `n` documents hands exactly the plain ones among
      them to `ingest_item`, in order, each as received, and leaves the
      documents after the `n`-th untouched. */
  lemma PlainPhaseSpec(start: Run, pkg: seq<string>, ingest: Ingest, n: nat)
    requires n <= |start.docs|
    ensures PlainPhase(start, pkg, ingest, n).Ok? ==>
      var run := PlainPhase(start, pkg, ingest, n).value;
      var plain := Plain(start.docs[..n]);
      && SameDocs(run.docs, start.docs)
      && (forall j :: n <= j < |start.docs| ==> run.docs[j] == start.docs[j])
      && start.calls <= run.calls
      && start.failed <= run.failed
      && |run.calls| == |start.calls| + |plain|
      && (forall i :: 0 <= i < |plain| ==> run.calls[|start.calls| + i].doc == plain[i])
      && (forall i :: |start.calls| <= i < |run.calls| ==>
            !IsComposite(run.calls[i].doc) && run.calls[i].withRouting == (run.calls[i].doc.guid !in pkg))
  {
    PlainPhaseKeeps(start, pkg, ingest, n);
    PlainPhaseAhead(start, pkg, ingest, n);
    PlainPhaseCalls(start, pkg, ingest, n);
  }

  /** The plain loop keeps guids and types and only adds calls, on plain
      documents. */
  lemma {:induction false} PlainPhaseKeeps(start: Run, pkg: seq<string>, ingest: Ingest, n: nat)
    requires n <= |start.docs|
    ensures PlainPhase(start, pkg, ingest, n).Ok? ==>
      var run := PlainPhase(start, pkg, ingest, n).value;
      && SameDocs(run.docs, start.docs)
      && start.calls <= run.calls
      && start.failed <= run.failed
      && (forall i :: |start.calls| <= i < |run.calls| ==>
            !IsComposite(run.calls[i].doc) && run.calls[i].withRouting == (run.calls[i].doc.guid !in pkg))
  {
    if n > 0 {
      PlainPhaseKeeps(start, pkg, ingest, n - 1);
    }
  }

  /** The plain loop leaves the documents it has not reached as they were. */
  lemma {:induction false} PlainPhaseAhead(start: Run, pkg: seq<string>, ingest: Ingest, n: nat)
    requires n <= |start.docs|
    ensures PlainPhase(start, pkg, ingest, n).Ok? ==>
      forall j :: n <= j < |start.docs| ==> PlainPhase(start, pkg, ingest, n).value.docs[j] == start.docs[j]
  {
    if n > 0 {
      PlainPhaseAhead(start, pkg, ingest, n - 1);
    }
  }

  /** The calls from position `from` on hand `docs` to `ingest_item`, in order. */
  predicate CallsAre(calls: seq<Call>, from: nat, docs: seq<IngestDoc>) {
    |calls| == from + |docs| && forall i :: 0 <= i < |docs| ==> calls[from + i].doc == docs[i]
  }

  lemma CallsAreAppend(calls: seq<Call>, from: nat, docs: seq<IngestDoc>, c: Call)
    requires CallsAre(calls, from, docs)
    ensures CallsAre(calls + [c], from, docs + [c.doc])
  {
    forall i | 0 <= i < |docs| + 1 ensures (calls + [c])[from + i].doc == (docs + [c.doc])[i] {
      if i < |docs| {
        assert (calls + [c])[from + i] == calls[from + i];
      }
    }
  }

  /** The calls the plain loop adds are the plain documents among the first
      `n`, in order. */
  lemma {:induction false} PlainPhaseCalls(start: Run, pkg: seq<string>, ingest: Ingest, n: nat)
    requires n <= |start.docs|
    ensures PlainPhase(start, pkg, ingest, n).Ok? ==>
      CallsAre(PlainPhase(start, pkg, ingest, n).value.calls, |start.calls|, Plain(start.docs[..n]))
  {
    if n > 0 {
      PlainPhaseCalls(start, pkg, ingest, n - 1);
      PlainPhaseAhead(start, pkg, ingest, n - 1);
      assert start.docs[..n][..n - 1] == start.docs[..n - 1];
      match PlainPhase(start, pkg, ingest, n - 1)
      case Err(_) =>
      case Ok(run) =>
        var d := start.docs[n - 1];
        if !IsComposite(d) {
          assert Plain(start.docs[..n]) == Plain(start.docs[..n - 1]) + [d];
          var r := PlainPhase(start, pkg, ingest, n);
          if r.Ok? {
            assert r.value.calls == run.calls + [Call(d, d.guid !in pkg)];
            CallsAreAppend(run.calls, |start.calls|, Plain(start.docs[..n - 1]), Call(d, d.guid !in pkg));
          }
        }
    }
  }

  lemma {:induction false} PackagePhaseSpec(start: Run, kinds: seq<IngestDoc>, ingest: Ingest, n: nat)
    requires n <= |kinds| && SameDocs(start.docs, kinds)
    ensures PackagePhase(start, kinds, ingest, n).Ok? ==>
      var run := PackagePhase(start, kinds, ingest, n).value;
      && SameDocs(run.docs, kinds)
      && start.calls <= run.calls
      && start.failed <= run.failed
      && (forall i :: |start.calls| <= i < |run.calls| ==> IsComposite(run.calls[i].doc) && run.calls[i].withRouting)
  {
    if n > 0 {
      PackagePhaseSpec(start, kinds, ingest, n - 1);
      match PackagePhase(start, kinds, ingest, n - 1)
      case Err(_) =>
      case Ok(run) =>
        if IsComposite(kinds[n - 1]) {
          PackageStepKeeps(start, kinds, run, n - 1, ingest);
        }
    }
  }

  /** What PackagePhaseSpec states of a run, for the loop so far. */
  predicate PackageInv(start: Run, kinds: seq<IngestDoc>, run: Run) {
    && SameDocs(run.docs, kinds)
    && start.calls <= run.calls
    && start.failed <= run.failed
    && (forall i :: |start.calls| <= i < |run.calls| ==> IsComposite(run.calls[i].doc) && run.calls[i].withRouting)
  }

  lemma PackageStepKeeps(start: Run, kinds: seq<IngestDoc>, run: Run, k: nat, ingest: Ingest)
    requires k < |kinds| && IsComposite(kinds[k]) && PackageInv(start, kinds, run)
    ensures PackageStep(run, k, ingest).Ok? ==> PackageInv(start, kinds, PackageStep(run, k, ingest).value)
  {
    PackageStepSpec(run, k, ingest);
    var r := PackageStep(run, k, ingest);
    if r.Ok? {
      var run' := r.value;
      forall i | |start.calls| <= i < |run'.calls|
        ensures IsComposite(run'.calls[i].doc) && run'.calls[i].withRouting
      {
        if i < |run.calls| {
          assert run'.calls[i] == run.calls[i];
        } else {
          assert run'.calls[i].doc.itemType == kinds[k].itemType;
        }
      }
    }
  }

  /** One package step keeps the documents' guids and types, only adds to
      the calls and to `failed_items`, and any call it adds is the package,
      with the routing scheme: exactly one call, with the rewritten package,
      unless the reference loop put it in `failed_items`. */
  lemma PackageStepSpec(run: Run, k: nat, ingest: Ingest)
    requires k < |run.docs|
    ensures PackageStep(run, k, ingest).Ok? ==>
      var run' := PackageStep(run, k, ingest).value;
      && SameDocs(run'.docs, run.docs)
      && run.calls <= run'.calls
      && run.failed <= run'.failed
      && (forall i :: |run.calls| <= i < |run'.calls| ==>
            && run'.calls[i].doc.guid == run.docs[k].guid
            && run'.calls[i].doc.itemType == run.docs[k].itemType
            && run'.calls[i].withRouting)
    ensures var w := RewriteRefs(run.docs[k], run.docs, run.failed, |run.docs[k].refs|);
      && (run.docs[k].guid in w.failed ==>
            PackageStep(run, k, ingest).Ok? && PackageStep(run, k, ingest).value.calls == run.calls)
      && (run.docs[k].guid !in w.failed && PackageStep(run, k, ingest).Ok? ==>
            PackageStep(run, k, ingest).value.calls == run.calls + [Call(w.doc, true)])
  {
    var doc := run.docs[k];
    RewriteRefsSpec(doc, run.docs, run.failed, |doc.refs|);
  }

  /** The first calls of `ingest_item` are exactly the plain items of the
      filtered batch, in order, and come before any package; plain items go with the routing scheme unless the last package of the batch
      names them, and packages always go with it. */
  lemma PlainItemsFirst(p: Provider, items: seq<IngestDoc>, now: int, defaultMinutes: int, ingest: Ingest)
    requires IngestItemsRun(p, items, now, defaultMinutes, ingest).Ok?
    ensures var run := IngestItemsRun(p, items, now, defaultMinutes, ingest).value;
      var docs := FilterExpiredItems(p, items, now, defaultMinutes).value;
      && |Plain(docs)| <= |run.calls|
      && (forall i :: 0 <= i < |Plain(docs)| ==> run.calls[i].doc == Plain(docs)[i])
      && (forall i, j :: 0 <= i < j < |run.calls| && IsComposite(run.calls[i].doc) ==> IsComposite(run.calls[j].doc))
      && (forall i :: 0 <= i < |run.calls| && !IsComposite(run.calls[i].doc) ==>
            run.calls[i].withRouting == (run.calls[i].doc.guid !in PackageRefs(docs, |docs|)))
      && (forall i :: 0 <= i < |run.calls| && IsComposite(run.calls[i].doc) ==> run.calls[i].withRouting)
  {
    var docs := FilterExpiredItems(p, items, now, defaultMinutes).value;
    var pkg := PackageRefs(docs, |docs|);
    var start := Run(docs, {}, [], []);
    PlainPhaseSpec(start, pkg, ingest, |docs|);
    assert docs[..|docs|] == docs;
    var mid := PlainPhase(start, pkg, ingest, |docs|).value;
    PackagePhaseSpec(mid, docs, ingest, |docs|);
  }

  /** A package with a reference to an item in `failed_items` joins it and
      is not handed to `ingest_item`. */
  lemma FailedReferenceFailsPackage(run: Run, k: nat, ingest: Ingest, j: nat)
    requires k < |run.docs| && j < |run.docs[k].refs|
    requires run.docs[k].refs[j].residRef.Some? && run.docs[k].refs[j].residRef.value in run.failed
    ensures PackageStep(run, k, ingest).Ok?
    ensures run.docs[k].guid in PackageStep(run, k, ingest).value.failed
    ensures PackageStep(run, k, ingest).value.calls == run.calls
  {
    var doc := run.docs[k];
    RewriteRefsSpec(doc, run.docs, run.failed, |doc.refs|);
  }

  /** The package loop's view of a reference that does not name a failed item
      (nor the package itself): it is pointed at the ingested document. */
  lemma ReferencesRewritten(run: Run, k: nat, ingest: Ingest, j: nat)
    requires k < |run.docs| && j < |run.docs[k].refs|
    requires var r := run.docs[k].refs[j];
      r.residRef.Some? && r.residRef.value !in run.failed && r.residRef.value != run.docs[k].guid
    ensures PackageStep(run, k, ingest).Ok? ==>
      var r := run.docs[k].refs[j];
      PackageStep(run, k, ingest).value.docs[k].refs[j] == RewriteRef(r, Lookup(run.docs, r.residRef.value))
  {
    var doc := run.docs[k];
    RewriteRefsSpec(doc, run.docs, run.failed, |doc.refs|);
  }

  /** `ingest_item` never returns `(False, ids)`: it returns `(True, ids)` or a
      bare `False`.  With such an oracle `failed_items` stays empty, so the
      failure branches of both loops and the package propagation never run. */
  lemma NothingEverFails(p: Provider, items: seq<IngestDoc>, now: int, defaultMinutes: int, ingest: Ingest)
    requires forall n, d, w :: ingest(n, d, w).BareFalse? || ingest(n, d, w).ingested
    ensures IngestItemsRun(p, items, now, defaultMinutes, ingest).Ok? ==>
      IngestItemsRun(p, items, now, defaultMinutes, ingest).value.failed == {}
  {
    match FilterExpiredItems(p, items, now, defaultMinutes)
    case Err(_) =>
    case Ok(docs) =>
      var start := Run(docs, {}, [], []);
      var pkg := PackageRefs(docs, |docs|);
      PlainNeverFails(start, pkg, ingest, |docs|);
      match PlainPhase(start, pkg, ingest, |docs|)
      case Err(_) =>
      case Ok(run) =>
        PackageNeverFails(run, docs, ingest, |docs|);
  }

  lemma {:induction false} PlainNeverFails(start: Run, pkg: seq<string>, ingest: Ingest, n: nat)
    requires n <= |start.docs| && start.failed == {}
    requires forall n, d, w :: ingest(n, d, w).BareFalse? || ingest(n, d, w).ingested
    ensures PlainPhase(start, pkg, ingest, n).Ok? ==> PlainPhase(start, pkg, ingest, n).value.failed == {}
  {
    if n > 0 {
      PlainNeverFails(start, pkg, ingest, n - 1);
    }
  }

  lemma {:induction false} PackageNeverFails(start: Run, kinds: seq<IngestDoc>, ingest: Ingest, n: nat)
    requires n <= |kinds| == |start.docs| && start.failed == {}
    requires forall n, d, w :: ingest(n, d, w).BareFalse? || ingest(n, d, w).ingested
    ensures PackagePhase(start, kinds, ingest, n).Ok? ==> PackagePhase(start, kinds, ingest, n).value.failed == {}
  {
    if n > 0 {
      PackageNeverFails(start, kinds, ingest, n - 1);
      match PackagePhase(start, kinds, ingest, n - 1)
      case Err(_) =>
      case Ok(run) =>
        if IsComposite(kinds[n - 1]) {
          var doc := run.docs[n - 1];
          RewriteRefsSpec(doc, run.docs, run.failed, |doc.refs|);
        }
    }
  }

  /** A single plain item whose ingest fails: `ingest_item` returns `False`
      and the run ends with the unpacking error instead of recording the item
      in `failed_items`. */
  lemma FailedIngestAborts(p: Provider, item: IngestDoc, now: int, defaultMinutes: int, ingest: Ingest)
    requires FilterExpiredItems(p, [item], now, defaultMinutes) == Ok([item]) && !IsComposite(item)
    requires forall n, d, w :: ingest(n, d, w) == BareFalse
    ensures IngestItemsRun(p, [item], now, defaultMinutes, ingest) == Err(UnpackFailed)
  {
    var start := Run([item], {}, [], []);
    assert PlainPhase(start, PackageRefs([item], 1), ingest, 0) == Ok(start);
  }

  /** The intended reading of a failed ingest: a bare `False` counts as
      `(False, [])`. */
  function Tolerant(ingest: Ingest): Ingest {
    (n: nat, d: IngestDoc, w: bool) => if ingest(n, d, w).BareFalse? then Returned(false, [], None, None) else ingest(n, d, w)
  }

  /** Read that way, a run never ends with an unpacking error, every plain
      item whose ingest failed is in `failed_items`, and (by
      FailedReferenceFailsPackage) so is every package referring to it. */
  lemma {:induction false} TolerantPlainPhase(start: Run, pkg: seq<string>, ingest: Ingest, n: nat)
    requires n <= |start.docs|
    ensures PlainPhase(start, pkg, Tolerant(ingest), n).Ok?
    ensures var run := PlainPhase(start, pkg, Tolerant(ingest), n).value;
      && |run.docs| == |start.docs|
      && start.calls <= run.calls
      && forall i :: |start.calls| <= i < |run.calls| ==>
           ingest(i, run.calls[i].doc, run.calls[i].withRouting).BareFalse? ==> run.calls[i].doc.guid in run.failed
  {
    if n > 0 {
      TolerantPlainPhase(start, pkg, ingest, n - 1);
    }
  }

  lemma TolerantNeverUnpackFails(p: Provider, items: seq<IngestDoc>, now: int, defaultMinutes: int, ingest: Ingest)
    ensures IngestItemsRun(p, items, now, defaultMinutes, Tolerant(ingest)) != Err(UnpackFailed)
  {
    match FilterExpiredItems(p, items, now, defaultMinutes)
    case Err(_) =>
    case Ok(docs) =>
      var start := Run(docs, {}, [], []);
      TolerantPlainPhase(start, PackageRefs(docs, |docs|), ingest, |docs|);
      var run := PlainPhase(start, PackageRefs(docs, |docs|), Tolerant(ingest), |docs|).value;
      TolerantPackagePhase(run, docs, ingest, |docs|);
  }

  lemma {:induction false} TolerantPackagePhase(start: Run, kinds: seq<IngestDoc>, ingest: Ingest, n: nat)
    requires n <= |kinds| == |start.docs|
    ensures PackagePhase(start, kinds, Tolerant(ingest), n).Ok?
  {
    if n > 0 {
      TolerantPackagePhase(start, kinds, ingest, n - 1);
    }
  }
}
