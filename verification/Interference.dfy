/** What cannot change a prompt's result: records of other prompts and sessions, records outside the
    interval, and repeated or stale revisions. */
module Interference {
  import opened Decoder
  import opened Json
  import opened Wrappers

  // --- counting and finding in a longer wire ----------------------------------------------

  lemma {:induction false} CountsAdd(a: seq<Json>, b: seq<Json>, r: string, s: string)
    ensures CountRequests(a + b, r, s) == CountRequests(a, r, s) + CountRequests(b, r, s)
    ensures CountResponses(a + b, r) == CountResponses(a, r) + CountResponses(b, r)
    decreases |b|
  {
    hide IsRequest;
    hide IsResponse;
    if b == [] {
      assert a + b == a;
    } else {
      assert (a + b)[..|a + b| - 1] == a + b[..|b| - 1];
      CountsAdd(a, b[..|b| - 1], r, s);
    }
  }

  lemma {:induction false} RequestFound(a: seq<Json>, b: seq<Json>, r: string, s: string)
    ensures RequestAt(a + b, r, s) == if RequestAt(a, r, s) < |a| then RequestAt(a, r, s) else |a| + RequestAt(b, r, s)
    decreases |a|
  {
    hide IsRequest;
    if a == [] {
      assert a + b == b;
    } else {
      assert (a + b)[1..] == a[1..] + b;
      RequestFound(a[1..], b, r, s);
    }
  }

  lemma {:induction false} ResponseFound(a: seq<Json>, b: seq<Json>, r: string)
    ensures ResponseAt(a + b, r) == if ResponseAt(a, r) < |a| then ResponseAt(a, r) else |a| + ResponseAt(b, r)
    decreases |a|
  {
    hide IsResponse;
    if a == [] {
      assert a + b == b;
    } else {
      assert (a + b)[1..] == a[1..] + b;
      ResponseFound(a[1..], b, r);
    }
  }

  lemma {:induction false} ScanAdds(a: seq<Json>, b: seq<Json>, r: string, s: string)
    ensures Scan(a + b, r, s) ==
              if Scan(a, r, s).None? || Scan(b, r, s).None? then None
              else Some(Scan(a, r, s).value + Scan(b, r, s).value)
    decreases |b|
  {
    hide Inspect;
    if b == [] {
      assert a + b == a;
      assert Scan(b, r, s) == Some([]);
      if Scan(a, r, s).Some? { assert Scan(a, r, s).value + [] == Scan(a, r, s).value; }
    } else {
      var b' := b[..|b| - 1];
      assert (a + b)[..|a + b| - 1] == a + b';
      ScanAdds(a, b', r, s);
      if Scan(a, r, s).Some? && Scan(b', r, s).Some? {
        forall f ensures (Scan(a, r, s).value + Scan(b', r, s).value) + [f] == Scan(a, r, s).value + (Scan(b', r, s).value + [f]) {}
      }
    }
  }

  lemma {:induction false} UsageAdds(a: seq<Json>, x: Json, b: seq<Json>, s: string)
    requires !ReportsUsage(x, s)
    ensures NotedUsage(a + [x] + b, s) == NotedUsage(a + b, s)
    decreases |b|
  {
    hide ReportsUsage;
    hide ReadUsage;
    if b == [] {
      assert a + b == a && (a + [x] + b)[..|a|] == a;
    } else {
      var b' := b[..|b| - 1];
      assert (a + [x] + b)[..|a| + |b|] == a + [x] + b' && (a + b)[..|a| + |b| - 1] == a + b';
      UsageAdds(a, x, b', s);
    }
  }

  /** None of the records is the prompt's request or its response. */
  predicate Inner(values: seq<Json>, r: string, s: string) {
    forall v :: v in values ==> !IsRequest(v, r, s) && !IsResponse(v, r)
  }

  // --- one record more or less ---------------------------------------------------------------

  /** The record at this place would lie between the request and its response. */
  predicate InInterval(a: seq<Json>, r: string, s: string) {
    RequestAt(a, r, s) < |a| && ResponseAt(a, r) == |a|
  }

  /** Equal but for the usage that was reported. */
  predicate SameVerdict(p: PromptResult, q: PromptResult) {
    p.Raised? == q.Raised? &&
    (p.PromptResult? ==> p.kind == q.kind && p.stopReason == q.stopReason && p.failures == q.failures)
  }

  /** Where the two ends of the interval are when a record that is neither is put in. */
  lemma EndsMove(a: seq<Json>, x: Json, b: seq<Json>, r: string, s: string)
    requires !IsRequest(x, r, s) && !IsResponse(x, r)
    ensures var w, w' := a + b, a + [x] + b;
            && CountRequests(w', r, s) == CountRequests(w, r, s) && CountResponses(w', r) == CountResponses(w, r)
            && RequestAt(w', r, s) == RequestAt(w, r, s) + (if RequestAt(a, r, s) < |a| then 0 else 1)
            && ResponseAt(w', r) == ResponseAt(w, r) + (if ResponseAt(a, r) < |a| then 0 else 1)
            && (RequestAt(a, r, s) < |a| <==> RequestAt(w, r, s) < |a|) && (ResponseAt(a, r) < |a| <==> ResponseAt(w, r) < |a|)
  {
    Neither(x, r, s);
    hide CountRequests;
    hide CountResponses;
    hide RequestAt;
    hide ResponseAt;
    hide IsRequest;
    hide IsResponse;
    CountsAdd(a, b, r, s);
    CountsAdd(a + [x], b, r, s);
    CountsAdd(a, [x], r, s);
    RequestFound(a, b, r, s);
    RequestFound(a + [x], b, r, s);
    RequestFound(a, [x], r, s);
    ResponseFound(a, b, r);
    ResponseFound(a + [x], b, r);
    ResponseFound(a, [x], r);
  }

  lemma Neither(x: Json, r: string, s: string)
    requires !IsRequest(x, r, s) && !IsResponse(x, r)
    ensures CountRequests([x], r, s) == 0 && CountResponses([x], r) == 0
    ensures RequestAt([x], r, s) == 1 && ResponseAt([x], r) == 1
  {
    hide IsRequest;
    hide IsResponse;
    assert [x][..0] == [] && [x][1..] == [];
    assert CountRequests([], r, s) == 0 && CountResponses([], r) == 0;
    assert RequestAt([], r, s) == 0 && ResponseAt([], r) == 0;
  }

  lemma ScanIgnores(c: seq<Json>, x: Json, d: seq<Json>, r: string, s: string)
    requires Inspect(x, r, s).Skip?
    ensures Scan(c + [x] + d, r, s) == Scan(c + d, r, s)
  {
    hide Inspect;
    ScanAdds(c, d, r, s);
    ScanAdds(c + [x], d, r, s);
    ScanAdds(c, [x], r, s);
    assert Scan([x], r, s) == Some([]) by {
      assert [x][..0] == [];
      assert Scan([], r, s) == Some([]);
    }
    hide Scan;
    if Scan(c, r, s).Some? { assert Scan(c, r, s).value + [] == Scan(c, r, s).value; }
  }

  /** The end of a decode looks at the interval through its scan and its usage only. */
  lemma FinishReads(response: Json, b: seq<Json>, b': seq<Json>, r: string, s: string)
    requires Scan(b', r, s) == Scan(b, r, s)
    ensures SameVerdict(Finish(response, b', r, s), Finish(response, b, r, s))
    ensures NotedUsage(b', s) == NotedUsage(b, s) ==> Finish(response, b', r, s) == Finish(response, b, r, s)
  {
    hide Scan;
    hide NotedUsage;
    hide ReadUsage;
    hide Gather;
    hide Terminal;
  }

  lemma FinishIgnores(response: Json, c: seq<Json>, x: Json, d: seq<Json>, r: string, s: string)
    requires Inspect(x, r, s).Skip?
    ensures SameVerdict(Finish(response, c + [x] + d, r, s), Finish(response, c + d, r, s))
    ensures !ReportsUsage(x, s) ==> Finish(response, c + [x] + d, r, s) == Finish(response, c + d, r, s)
  {
    hide Inspect;
    hide ReportsUsage;
    hide Finish;
    hide SameVerdict;
    ScanIgnores(c, x, d, r, s);
    if !ReportsUsage(x, s) { UsageAdds(c, x, d, s); }
    hide Scan;
    hide NotedUsage;
    FinishReads(response, c + d, c + [x] + d, r, s);
  }

  /** A record that is neither the prompt's request nor its response, and that lies outside the interval, or
      belongs to another session, carries no failure, or carries the failure of another prompt, never
      changes the verdict. Unless it reports the session's usage inside the interval, it changes nothing. */
  lemma RecordIgnored(a: seq<Json>, x: Json, b: seq<Json>, r: string, s: string)
    requires !IsRequest(x, r, s) && !IsResponse(x, r)
    requires InInterval(a, r, s) ==> Inspect(x, r, s).Skip?
    ensures SameVerdict(Decode(a + [x] + b, r, s), Decode(a + b, r, s))
    ensures !InInterval(a, r, s) || !ReportsUsage(x, s) ==> Decode(a + [x] + b, r, s) == Decode(a + b, r, s)
  {
    hide Inspect;
    hide ReportsUsage;
    hide IsRequest;
    hide IsResponse;
    hide Decode;
    hide RequestAt;
    hide ResponseAt;
    hide SameVerdict;
    EndsMove(a, x, b, r, s);
    var i, j := RequestAt(a + b, r, s), ResponseAt(a + b, r);
    if i < |a| <= j {
      RecordInside(a, x, b, r, s);
    } else {
      RecordOutside(a, x, b, r, s);
      SameIsSame(Decode(a + b, r, s));
    }
  }

  lemma SameIsSame(p: PromptResult)
    ensures SameVerdict(p, p)
  {
  }

  lemma RecordInside(a: seq<Json>, x: Json, b: seq<Json>, r: string, s: string)
    requires var w, w' := a + b, a + [x] + b;
             && CountRequests(w', r, s) == CountRequests(w, r, s) && CountResponses(w', r) == CountResponses(w, r)
             && RequestAt(w, r, s) < |a| <= ResponseAt(w, r)
             && RequestAt(w', r, s) == RequestAt(w, r, s) && ResponseAt(w', r) == ResponseAt(w, r) + 1
    requires Inspect(x, r, s).Skip?
    ensures SameVerdict(Decode(a + [x] + b, r, s), Decode(a + b, r, s))
    ensures !ReportsUsage(x, s) ==> Decode(a + [x] + b, r, s) == Decode(a + b, r, s)
  {
    hide Inspect;
    hide ReportsUsage;
    hide Finish;
    hide CountRequests;
    hide CountResponses;
    hide RequestAt;
    hide ResponseAt;
    var w, i, j := a + b, RequestAt(a + b, r, s), ResponseAt(a + b, r);
    if j < |w| {
      SlicesInside(a, x, b, i, j);
      FinishIgnores(w[j], a[i + 1..], x, b[..j - |a|], r, s);
    }
  }

  lemma RecordOutside(a: seq<Json>, x: Json, b: seq<Json>, r: string, s: string)
    requires var w, w' := a + b, a + [x] + b;
             && CountRequests(w', r, s) == CountRequests(w, r, s) && CountResponses(w', r) == CountResponses(w, r)
             && !(RequestAt(w, r, s) < |a| <= ResponseAt(w, r))
             && RequestAt(w', r, s) == RequestAt(w, r, s) + (if RequestAt(w, r, s) < |a| then 0 else 1)
             && ResponseAt(w', r) == ResponseAt(w, r) + (if ResponseAt(w, r) < |a| then 0 else 1)
    ensures Decode(a + [x] + b, r, s) == Decode(a + b, r, s)
  {
    hide Finish;
    hide CountRequests;
    hide CountResponses;
    hide RequestAt;
    hide ResponseAt;
    var i, j := RequestAt(a + b, r, s), ResponseAt(a + b, r);
    if i < j < |a + b| {
      if j < |a| { SlicesBefore(a, x, b, i, j); } else { SlicesAfter(a, x, b, i, j); }
    }
  }

  lemma SlicesInside(a: seq<Json>, x: Json, b: seq<Json>, i: nat, j: nat)
    requires i < |a| <= j < |a + b|
    ensures (a + b)[i + 1..j] == a[i + 1..] + b[..j - |a|]
    ensures (a + [x] + b)[i + 1..j + 1] == a[i + 1..] + [x] + b[..j - |a|] && (a + [x] + b)[j + 1] == (a + b)[j]
  {
  }

  lemma SlicesBefore(a: seq<Json>, x: Json, b: seq<Json>, i: nat, j: nat)
    requires i < j < |a|
    ensures (a + [x] + b)[i + 1..j] == (a + b)[i + 1..j] && (a + [x] + b)[j] == (a + b)[j]
  {
  }

  lemma SlicesAfter(a: seq<Json>, x: Json, b: seq<Json>, i: nat, j: nat)
    requires |a| <= i < j < |a + b|
    ensures (a + [x] + b)[i + 2..j + 1] == (a + b)[i + 1..j] && (a + [x] + b)[j + 1] == (a + b)[j]
  {
  }

  /** Other sessions and other prompts' incidents are such records. */
  lemma ForeignIsSkipped(x: Json, r: string, s: string)
    ensures !IsUpdate(x, s) ==> Inspect(x, r, s).Skip?
    ensures IsUpdate(x, s) && Foreign(AtPath(UpdateOf(x), SESSION_FAILURE), r) ==> Inspect(x, r, s).Skip?
  {
    hide HasPath;
    hide AtPath;
  }

  // --- what comes before and after ---------------------------------------------------------------

  lemma {:induction false} BeforeIgnored(before: seq<Json>, wire: seq<Json>, r: string, s: string)
    requires Inner(before, r, s)
    ensures Decode(before + wire, r, s) == Decode(wire, r, s)
    decreases |before|
  {
    hide Decode;
    hide IsRequest;
    hide IsResponse;
    if before == [] {
      assert before + wire == wire;
    } else {
      var rest := before[1..];
      assert before[0] in before && forall v :: v in rest ==> v in before;
      assert before + wire == [] + [before[0]] + (rest + wire) && rest + wire == [] + (rest + wire);
      RecordIgnored([], before[0], rest + wire, r, s);
      BeforeIgnored(rest, wire, r, s);
    }
  }

  lemma {:induction false} AfterIgnored(wire: seq<Json>, later: seq<Json>, r: string, s: string)
    requires Inner(later, r, s) && ResponseAt(wire, r) < |wire|
    ensures Decode(wire + later, r, s) == Decode(wire, r, s)
    decreases |later|
  {
    hide Decode;
    hide IsRequest;
    hide IsResponse;
    hide RequestAt;
    hide ResponseAt;
    if later == [] {
      assert wire + later == wire;
    } else {
      var n := |later| - 1;
      var a, x := wire + later[..n], later[n];
      assert x in later && forall v :: v in later[..n] ==> v in later;
      assert wire + later == a + [x] + [] && a == a + [];
      ResponseFound(wire, later[..n], r);
      RecordIgnored(a, x, [], r, s);
      AfterIgnored(wire, later[..n], r, s);
    }
  }
}
