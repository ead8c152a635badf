/** The effective failures: per incident the evidence of the highest revision, whatever is repeated or stale. */
module Reconciliation {
  import opened Decoder
  import opened Json
  import opened Wrappers

  /** The first evidence of the highest revision of an incident. */
  function Top(es: seq<Evidence>, id: string): Option<Evidence> {
    if es == [] then None
    else
      var before, e := Top(es[..|es| - 1], id), es[|es| - 1];
      if e.id == id && (before.None? || e.revision > before.value.revision) then Some(e) else before
  }

  lemma {:induction false} TopIsNewest(es: seq<Evidence>, id: string)
    ensures Top(es, id).None? <==> forall e :: e in es ==> e.id != id
    ensures Top(es, id).Some? ==>
              && Top(es, id).value in es && Top(es, id).value.id == id
              && forall e :: e in es && e.id == id ==> e.revision <= Top(es, id).value.revision
    decreases |es|
  {
    if es != [] {
      var n := |es| - 1;
      TopIsNewest(es[..n], id);
      assert forall e :: e in es <==> e in es[..n] || e == es[n];
    }
  }

  lemma TopNext(es: seq<Evidence>, e: Evidence, id: string)
    ensures Top(es + [e], id) ==
              if e.id == id && (Top(es, id).None? || e.revision > Top(es, id).value.revision) then Some(e) else Top(es, id)
  {
    assert (es + [e])[..|es|] == es;
  }

  /** At this place a revision comes up again that so far is the highest of its incident, but with different contents. */
  predicate ClashAt(es: seq<Evidence>, j: nat)
    requires j < |es|
  {
    var t := Top(es[..j], es[j].id);
    t.Some? && t.value.revision == es[j].revision && t.value != es[j]
  }

  predicate Reconcilable(es: seq<Evidence>) {
    forall j :: 0 <= j < |es| ==> !ClashAt(es, j)
  }

  /** Equal revisions of an incident agree. */
  predicate Agreeing(es: seq<Evidence>) {
    forall a, b :: a in es && b in es && a.id == b.id && a.revision == b.revision ==> a == b
  }

  lemma AgreeingReconciles(es: seq<Evidence>)
    requires Agreeing(es)
    ensures Reconcilable(es)
  {
    forall j | 0 <= j < |es| ensures !ClashAt(es, j) {
      TopIsNewest(es[..j], es[j].id);
      assert forall e :: e in es[..j] ==> e in es;
      assert es[j] in es;
    }
  }

  // --- the dictionary of failures -------------------------------------------------------------

  function Lookup(fs: seq<Evidence>, id: string): Option<Evidence> {
    if Slot(fs, id) < |fs| then Some(fs[Slot(fs, id)]) else None
  }

  predicate DistinctIds(fs: seq<Evidence>) {
    forall i, j :: 0 <= i < j < |fs| ==> fs[i].id != fs[j].id
  }

  lemma SlotIs(fs: seq<Evidence>, id: string, k: nat)
    requires k <= |fs| && (k < |fs| ==> fs[k].id == id) && forall i :: 0 <= i < k ==> fs[i].id != id
    ensures Slot(fs, id) == k
  {
  }

  lemma MergedLookup(fs: seq<Evidence>, e: Evidence, id: string)
    requires DistinctIds(fs)
    ensures DistinctIds(Merged(fs, e))
    ensures Lookup(Merged(fs, e), id) ==
              if e.id == id && (Lookup(fs, id).None? || e.revision > Lookup(fs, id).value.revision) then Some(e) else Lookup(fs, id)
  {
    var k, fs' := Slot(fs, e.id), Merged(fs, e);
    if e.id == id { SlotIs(fs', id, k); } else { SlotIs(fs', id, if Slot(fs, id) < |fs| then Slot(fs, id) else |fs'|); }
  }

  /** fs holds for every incident what es says is the top. */
  ghost predicate Represents(fs: seq<Evidence>, es: seq<Evidence>) {
    DistinctIds(fs) && forall id :: Lookup(fs, id) == Top(es, id)
  }

  lemma MergedRepresents(fs: seq<Evidence>, es: seq<Evidence>, e: Evidence)
    requires Represents(fs, es)
    ensures Represents(Merged(fs, e), es + [e])
    ensures Clashes(fs, e) <==> ClashAt(es + [e], |es|)
  {
    assert Lookup(fs, e.id) == Top(es, e.id);
    assert (es + [e])[..|es|] == es;
    forall id ensures Lookup(Merged(fs, e), id) == Top(es + [e], id) {
      MergedLookup(fs, e, id);
      TopNext(es, e, id);
    }
    MergedLookup(fs, e, e.id);
  }

  predicate AllGood(raws: seq<Json>) {
    forall i :: 0 <= i < |raws| ==> ReadFailure(raws[i]).Good?
  }

  function Evidences(raws: seq<Json>): (es: seq<Evidence>)
    requires AllGood(raws)
    ensures |es| == |raws|
  {
    seq(|raws|, i requires 0 <= i < |raws| => ReadFailure(raws[i]).evidence)
  }

  lemma ClashAtPrefix(a: seq<Evidence>, b: seq<Evidence>, j: nat)
    requires j < |a|
    ensures ClashAt(a + b, j) <==> ClashAt(a, j)
  {
    hide Top;
    assert (a + b)[..j] == a[..j];
  }

  lemma {:induction false} GatherFrom(fs: seq<Evidence>, es: seq<Evidence>, raws: seq<Json>)
    requires AllGood(raws) && Represents(fs, es)
    ensures Gather(fs, raws).All? <==> forall j :: |es| <= j < |es| + |raws| ==> !ClashAt(es + Evidences(raws), j)
    ensures Gather(fs, raws).All? ==> Represents(Gather(fs, raws).failures, es + Evidences(raws))
    decreases |raws|
  {
    hide ReadFailure;
    hide Represents;
    hide Clashes;
    hide Merged;
    if raws == [] {
      assert es + Evidences(raws) == es;
    } else {
      var e, all := ReadFailure(raws[0]).evidence, es + Evidences(raws);
      assert all == (es + [e]) + Evidences(raws[1..]);
      assert all[|es|] == e && all[..|es|] == es && (es + [e])[..|es|] == es;
      MergedRepresents(fs, es, e);
      ClashAtPrefix(es + [e], Evidences(raws[1..]), |es|);
      hide ClashAt;
      if !Clashes(fs, e) { GatherFrom(Merged(fs, e), es + [e], raws[1..]); }
    }
  }

  /** Gathering succeeds exactly when no highest revision comes up again with different contents;
      then it yields, for every incident, the first evidence of the highest revision. */
  lemma GatheredIsTop(raws: seq<Json>)
    requires AllGood(raws)
    ensures Gather([], raws).All? <==> Reconcilable(Evidences(raws))
    ensures Gather([], raws).All? ==> Represents(Gather([], raws).failures, Evidences(raws))
    ensures Agreeing(Evidences(raws)) ==> Gather([], raws).All?
  {
    hide Gather;
    assert Represents([], []);
    assert [] + Evidences(raws) == Evidences(raws);
    GatherFrom([], [], raws);
    if Agreeing(Evidences(raws)) { AgreeingReconciles(Evidences(raws)); }
  }

  lemma TopBounds(es: seq<Evidence>, id: string, e: Evidence)
    requires e in es && e.id == id
    ensures Top(es, id).Some? && e.revision <= Top(es, id).value.revision
  {
    TopIsNewest(es, id);
  }

  lemma TopIsMember(es: seq<Evidence>, id: string)
    requires Top(es, id).Some?
    ensures Top(es, id).value in es && Top(es, id).value.id == id
  {
    TopIsNewest(es, id);
  }

  lemma SameRevision(es: seq<Evidence>, e: Evidence, f: Evidence)
    requires Agreeing(es) && e in es && f in es && e.id == f.id && e.revision == f.revision
    ensures e == f
  {
  }

  /** There is evidence for the same incident with this revision or a higher one. */
  predicate Matched(es: seq<Evidence>, e: Evidence) {
    exists f :: f in es && f.id == e.id && f.revision >= e.revision
  }

  /** es' comes from es by dropping stale and repeated evidence of the incident and reordering. */
  ghost predicate Thinned(es: seq<Evidence>, es': seq<Evidence>, id: string) {
    && (forall e :: e in es && e.id == id ==> Matched(es', e))
    && (forall f :: f in es' && f.id == id ==> f in es)
  }

  lemma StillThere(es: seq<Evidence>, es': seq<Evidence>, id: string, e: Evidence) returns (f: Evidence)
    requires Thinned(es, es', id) && e in es && e.id == id
    ensures f in es' && f.id == id && f.revision >= e.revision
  {
    assert Matched(es', e);
    hide Thinned;
    f :| f in es' && f.id == id && f.revision >= e.revision;
  }

  lemma WasThere(es: seq<Evidence>, es': seq<Evidence>, id: string, f: Evidence)
    requires Thinned(es, es', id) && f in es' && f.id == id
    ensures f in es
  {
  }

  /** When equal revisions agree, dropping stale and repeated evidence and putting the rest in any
      order does not change what is effective. */
  lemma OrderAndRepeatsDoNotMatter(es: seq<Evidence>, es': seq<Evidence>, id: string)
    requires Agreeing(es) && Thinned(es, es', id)
    ensures Top(es, id) == Top(es', id)
  {
    hide Top;
    hide Agreeing;
    hide Thinned;
    if Top(es, id).Some? {
      var e := Top(es, id).value;
      TopIsMember(es, id);
      var g := StillThere(es, es', id, e);
      TopBounds(es', id, g);
    }
    if Top(es', id).Some? {
      var f := Top(es', id).value;
      TopIsMember(es', id);
      WasThere(es, es', id, f);
      TopBounds(es, id, f);
      SameRevision(es, Top(es, id).value, f);
    }
  }
}
