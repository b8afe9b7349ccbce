/** What every run of the publisher keeps, whatever the provider answers. */
module MetaScript {
  import opened Types
  import opened MetaPublishing

  /** A status check of this container was answered with the code FINISHED. */
  ghost predicate SawFinished(sent: seq<Exchange>, id: string) {
    exists k :: 0 <= k < |sent| && sent[k].request == Status(id) && SaysFinished(sent[k].response)
  }

  predicate SaysFinished(r: Response) {
    r.Answered? && r.status < 400 && r.body.Object? && r.body.statusCode == "FINISHED"
  }

  /** The provider answered with this identifier. */
  predicate Gives(r: Response, id: string) {
    r.Answered? && r.status < 400 && r.body.Object? && r.body.id == id != ""
  }

  /** A request was accepted in these exchanges and answered with this identifier. */
  ghost predicate Accepted(sent: seq<Exchange>, request: Request, id: string) {
    exists k :: 0 <= k < |sent| && sent[k].request == request && Gives(sent[k].response, id)
  }

  ghost predicate Publishes(sent: seq<Exchange>) {
    exists k :: 0 <= k < |sent| && sent[k].request.MediaPublish?
  }

  lemma ContainerFacts(block: seq<Exchange>, create: Request, r: Result<string, Fault>)
    requires Container(block, create, r) && !create.MediaPublish?
    ensures !Publishes(block)
    ensures r.Ok? ==> SawFinished(block, r.value) && Accepted(block, create, r.value)
  {
    forall k | 0 <= k < |block| ensures !block[k].request.MediaPublish? {
      if k > 0 { assert block[k] == block[1..][k - 1]; }
    }
    if r.Ok? {
      var last := |block| - 1;
      assert block[1..][last - 1] == block[last];
      assert block[last].request == Status(r.value) && SaysFinished(block[last].response);
      assert block[0].request == create;
    }
  }

  lemma {:induction false} ChildrenFacts(children: seq<seq<Exchange>>, ids: seq<string>, creates: seq<Request>)
    requires ChildrenReady(children, ids, creates)
    requires forall i :: 0 <= i < |creates| ==> creates[i].CarouselItem?
    ensures !Publishes(Concat(children))
    ensures forall i :: 0 <= i < |ids| ==>
      SawFinished(Concat(children), ids[i]) && Accepted(Concat(children), creates[i], ids[i])
  {
    if children != [] {
      var n := |ids| - 1;
      var before, block := Concat(children[..n]), children[n];
      ChildrenFacts(children[..n], ids[..n], creates);
      ContainerFacts(block, creates[n], Ok(ids[n]));
      forall i | 0 <= i < |ids|
        ensures SawFinished(before + block, ids[i]) && Accepted(before + block, creates[i], ids[i]) {
        if i < n {
          assert ids[..n][i] == ids[i];
          FactsExtend(before, block, creates[i], ids[i]);
        } else {
          FactsExtend(before, block, creates[n], ids[n]);
        }
      }
      PublishesConcat(before, block);
    }
  }

  lemma FactsExtend(a: seq<Exchange>, b: seq<Exchange>, request: Request, id: string)
    ensures SawFinished(a, id) || SawFinished(b, id) ==> SawFinished(a + b, id)
    ensures Accepted(a, request, id) || Accepted(b, request, id) ==> Accepted(a + b, request, id)
  {
    assert forall k :: 0 <= k < |a| ==> (a + b)[k] == a[k];
    assert forall k :: 0 <= k < |b| ==> (a + b)[|a| + k] == b[k];
  }

  lemma PublishesConcat(a: seq<Exchange>, b: seq<Exchange>)
    ensures Publishes(a + b) <==> Publishes(a) || Publishes(b)
  {
    assert forall k :: 0 <= k < |a| ==> (a + b)[k] == a[k];
    assert forall k :: 0 <= k < |b| ==> (a + b)[|a| + k] == b[k];
  }

  /**
   * The last exchange publishes the container created at position `c` and seen FINISHED after that; every
   * child was created for its own image, in slide order, and seen FINISHED before position `c`.
   */
  ghost predicate ProperPublish(t: seq<Exchange>, c: nat, run: Run, urls: seq<string>, body: string)
    requires |urls| >= 1
  {
    var n := |t| - 1;
    && c < n
    && t[n].request == MediaPublish(run.parent)
    && t[c].request == ParentRequest(urls, body, run.ids)
    && Gives(t[c].response, run.parent)
    && SawFinished(t[c..n], run.parent)
    && |run.ids| == |ChildRequests(urls)|
    && forall i :: 0 <= i < |run.ids| ==>
         Accepted(t[..c], CarouselItem(urls[i]), run.ids[i]) && SawFinished(t[..c], run.ids[i])
  }

  lemma ProperPublishIntro(front: seq<Exchange>, block: seq<Exchange>, last: Exchange, run: Run, urls: seq<string>,
    body: string)
    requires |urls| >= 1 && front == Concat(run.children)
    requires ChildrenReady(run.children, run.ids, ChildRequests(urls)) && |run.ids| == |ChildRequests(urls)|
    requires Container(block, ParentRequest(urls, body, run.ids), Ok(run.parent))
    requires last.request == MediaPublish(run.parent)
    ensures !Publishes(front + block) && ProperPublish(front + block + [last], |front|, run, urls, body)
  {
    var t, c, n := front + block + [last], |front|, |front + block|;
    ChildrenFacts(run.children, run.ids, ChildRequests(urls));
    ContainerFacts(block, ParentRequest(urls, body, run.ids), Ok(run.parent));
    PublishesConcat(front, block);
    assert t[..c] == front && t[c..n] == block && t[c] == block[0];
    assert |block| >= 2;
  }

  /**
   * media_publish is sent at most once and last, for a finished container; success means that it was answered with
   * an id.
   */
  ghost predicate OnlyFinished(
    t: seq<Exchange>, c: nat, run: Run, urls: seq<string>, body: string, r: Result<string, Fault>)
    requires |urls| >= 1
  {
    && t != []
    && !Publishes(t[..|t| - 1])
    && (Publishes(t) ==> ProperPublish(t, c, run, urls, body) && r == CreatedId(t[|t| - 1].response))
    && (r.Ok? ==> Publishes(t) && Gives(t[|t| - 1].response, r.value))
  }

  lemma UnpublishedOnlyFinished(run: Run, create: Request, urls: seq<string>, body: string, r: Result<string, Fault>)
    requires |urls| >= 1 && r.Err? && ChildrenReady(run.children, run.ids, ChildRequests(urls))
    requires Container(run.rest, create, r) && !create.MediaPublish?
    ensures OnlyFinished(run.Trace(), |Concat(run.children)|, run, urls, body, r)
  {
    var front, rest := Concat(run.children), run.rest;
    ChildrenFacts(run.children, run.ids, ChildRequests(urls));
    ContainerFacts(rest, create, r);
    PublishesConcat(front, rest);
    TraceSplit(front, rest);
    PublishesConcat(front + rest[..|rest| - 1], [rest[|rest| - 1]]);
    assert front + rest[..|rest| - 1] == (front + rest)[..|front + rest| - 1];
  }

  lemma PublishOnlyFinished(run: Run, urls: seq<string>, body: string, r: Result<string, Fault>)
    requires |urls| >= 1 && InstagramRun(run, urls, body, r)
    ensures OnlyFinished(run.Trace(), |Concat(run.children)|, run, urls, body, r)
  {
    var request := ParentRequest(urls, body, run.ids);
    if |run.ids| < |ChildRequests(urls)| {
      UnpublishedOnlyFinished(run, ChildRequests(urls)[|run.ids|], urls, body, r);
    } else if r.Err? && Container(run.rest, request, r) {
      UnpublishedOnlyFinished(run, request, urls, body, r);
    } else {
      ParentOnlyFinished(run, urls, body, r);
    }
  }

  lemma ParentOnlyFinished(run: Run, urls: seq<string>, body: string, r: Result<string, Fault>)
    requires |urls| >= 1 && ChildrenReady(run.children, run.ids, ChildRequests(urls))
      && |run.ids| == |ChildRequests(urls)|
    requires var request := ParentRequest(urls, body, run.ids);
      ParentRun(run.rest, request, run.parent, r) && !(r.Err? && Container(run.rest, request, r))
    ensures OnlyFinished(run.Trace(), |Concat(run.children)|, run, urls, body, r)
  {
    var n := |run.rest| - 1;
    PublishedOnlyFinished(Concat(run.children), run.rest[..n], run.rest[n], run, urls, body, r);
    TraceSplit(Concat(run.children), run.rest);
  }

  lemma TraceSplit(front: seq<Exchange>, rest: seq<Exchange>)
    requires rest != []
    ensures front + rest == front + rest[..|rest| - 1] + [rest[|rest| - 1]]
  {
  }

  lemma PublishedOnlyFinished(
    front: seq<Exchange>, block: seq<Exchange>, last: Exchange, run: Run, urls: seq<string>, body: string,
      r: Result<string, Fault>)
    requires |urls| >= 1 && front == Concat(run.children)
    requires ChildrenReady(run.children, run.ids, ChildRequests(urls)) && |run.ids| == |ChildRequests(urls)|
    requires Container(block, ParentRequest(urls, body, run.ids), Ok(run.parent))
    requires last.request == MediaPublish(run.parent) && r == CreatedId(last.response)
    ensures OnlyFinished(front + block + [last], |front|, run, urls, body, r)
  {
    var t := front + block + [last];
    ProperPublishIntro(front, block, last, run, urls, body);
    assert t[..|t| - 1] == front + block;
    assert t[|t| - 1] == last;
  }

  /** The requests of an undisturbed Instagram publication. */
  function Script(urls: seq<string>, body: string, ids: seq<string>, parent: string): seq<Request>
    requires |urls| >= 1 && |ids| == |ChildRequests(urls)|
  {
    ChildScript(ChildRequests(urls), ids) + [ParentRequest(urls, body, ids), Status(parent), MediaPublish(parent)]
  }

  function ChildScript(creates: seq<Request>, ids: seq<string>): seq<Request>
    requires |ids| <= |creates|
  {
    if ids == [] then [] else
      var n := |ids| - 1;
      ChildScript(creates, ids[..n]) + [creates[n], Status(ids[n])]
  }

  function Posts(sent: seq<Exchange>): nat {
    if sent == [] then 0 else
      Posts(sent[..|sent| - 1]) + if sent[|sent| - 1].request.Status? then 0 else 1
  }

  function Checks(sent: seq<Exchange>): nat {
    if sent == [] then 0 else
      Checks(sent[..|sent| - 1]) + if sent[|sent| - 1].request.Status? then 1 else 0
  }

  lemma CountsAppend(sent: seq<Exchange>, e: Exchange)
    ensures Posts(sent + [e]) == Posts(sent) + if e.request.Status? then 0 else 1
    ensures Checks(sent + [e]) == Checks(sent) + if e.request.Status? then 1 else 0
  {
    assert (sent + [e])[..|sent|] == sent;
  }

  /** A polling loop after a POST counts as one status check in the script, and sleeps between its checks. */
  lemma {:induction false} PollsSquash(before: seq<Exchange>, polls: seq<Exchange>, id: string)
    requires before != [] && before[|before| - 1].request != Status(id)
    requires forall i :: 0 <= i < |polls| ==> polls[i].request == Status(id)
    ensures Squash(before + polls) == if polls == [] then Squash(before) else Squash(before) + [Status(id)]
    ensures Posts(before + polls) == Posts(before) && Checks(before + polls) == Checks(before) + |polls|
  {
    if polls == [] {
      assert before + polls == before;
    } else {
      var n := |polls| - 1;
      PollsSquash(before, polls[..n], id);
      assert before + polls == (before + polls[..n]) + [polls[n]];
      SquashAppend(before + polls[..n], polls[n]);
      CountsAppend(before + polls[..n], polls[n]);
    }
  }

  /** What one container adds to the script, to the counts and to the sleep. */
  lemma ContainerSquash(before: seq<Exchange>, block: seq<Exchange>, create: Request, r: Result<string, Fault>)
    requires Container(block, create, r) && !create.Status?
    ensures Squash(before + block) == Squash(before) +
      if |block| == 1 then [create] else [create, Status(CreatedId(block[0].response).value)]
    ensures Posts(before + block) == Posts(before) + 1
    ensures Checks(before + block) <= Checks(before) + 5
    ensures Sleep(before + block) <= Sleep(before) + 8
    ensures r.Ok? ==> |block| > 1 && CreatedId(block[0].response) == Ok(r.value)
  {
    SquashAppend(before, block[0]);
    CountsAppend(before, block[0]);
    assert before + block == (before + [block[0]]) + block[1..];
    if |block| > 1 {
      PollsSquash(before + [block[0]], block[1..], CreatedId(block[0].response).value);
    } else {
      assert block == [block[0]];
    }
  }

  lemma NothingSent()
    ensures Squash([]) == [] && Posts([]) == 0 && Checks([]) == 0
  {
  }

  lemma NoChildrenIds(children: seq<seq<Exchange>>, ids: seq<string>, creates: seq<Request>)
    requires ChildrenReady(children, ids, creates) && children == []
    ensures ids == []
  {
  }

  lemma {:induction false} ChildrenSquash(children: seq<seq<Exchange>>, ids: seq<string>, creates: seq<Request>)
    requires ChildrenReady(children, ids, creates)
    requires forall i :: 0 <= i < |creates| ==> !creates[i].Status?
    ensures Squash(Concat(children)) == ChildScript(creates, ids)
    ensures Posts(Concat(children)) == |ids| && Checks(Concat(children)) <= 5 * |ids|
      && Sleep(Concat(children)) <= 8 * |ids|
  {
    hide ChildrenReady, Container, Squash, Posts, Checks;
    if children == [] {
      NothingSent();
      NoChildrenIds(children, ids, creates);
    } else {
      var n := |ids| - 1;
      LastChild(children, ids, creates);
      ChildrenSquash(children[..n], ids[..n], creates);
      ContainerSquash(Concat(children[..n]), children[n], creates[n], Ok(ids[n]));
    }
  }

  /** The identifiers of the script a run follows: those received, then the one being waited for, then unknown ones. */
  function ScriptIds(run: Run, urls: seq<string>): (ids: seq<string>)
    requires |run.ids| <= |ChildRequests(urls)|
    ensures |ids| == |ChildRequests(urls)| && run.ids <= ids
  {
    var k := |ChildRequests(urls)| - |run.ids|;
    run.ids + seq(k, _ => FirstId(run.rest))
  }

  /**
   * Up to repeated status checks a run sends a prefix of the script, and a successful run all of it. With one
   * container for each image of a carousel and one for the publication, it sends at most one POST per container
   * and one more, five status checks per container, and sleeps eight seconds per container.
   */
  lemma RunFollowsScript(run: Run, urls: seq<string>, body: string, r: Result<string, Fault>)
    requires |urls| >= 1 && InstagramRun(run, urls, body, r)
    ensures var t, c := run.Trace(), |ChildRequests(urls)| + 1;
      var script := Script(urls, body, ScriptIds(run, urls), FirstId(run.rest));
      && Squash(t) <= script
      && (r.Ok? ==> Squash(t) == script)
      && Posts(t) <= c + 1 && Checks(t) <= 5 * c && Sleep(t) <= 8 * c
  {
    if |run.ids| < |ChildRequests(urls)| {
      ChildFails(run, urls, r);
    } else {
      assert ScriptIds(run, urls) == run.ids;
      ChildrenSquash(run.children, run.ids, ChildRequests(urls));
      ParentSquash(Concat(run.children), run.rest, ParentRequest(urls, body, run.ids), run.parent, r);
    }
  }

  /** The identifier answered to the first of these requests, or "". */
  function FirstId(rest: seq<Exchange>): string {
    if rest != [] && CreatedId(rest[0].response).Ok? then CreatedId(rest[0].response).value else ""
  }

  lemma PublishedSquash(front: seq<Exchange>, block: seq<Exchange>, last: Exchange, create: Request, parent: string)
    requires Container(block, create, Ok(parent)) && !create.Status? && last.request == MediaPublish(parent)
    ensures var t := front + (block + [last]);
      && Squash(t) == Squash(front) + [create, Status(parent), MediaPublish(parent)]
      && Posts(t) == Posts(front) + 2 && Checks(t) <= Checks(front) + 5 && Sleep(t) <= Sleep(front) + 8
  {
    var t := front + block;
    ContainerSquash(front, block, create, Ok(parent));
    assert Squash(t) == Squash(front) + [create, Status(parent)];
    SquashAppend(t, last);
    CountsAppend(t, last);
    assert front + (block + [last]) == t + [last];
  }

  lemma ParentSquash(
    front: seq<Exchange>, rest: seq<Exchange>, create: Request, parent: string, r: Result<string, Fault>)
    requires ParentRun(rest, create, parent, r) && !create.Status?
    ensures Squash(front + rest) <= Squash(front) + [create, Status(FirstId(rest)), MediaPublish(FirstId(rest))]
    ensures r.Ok? ==>
      Squash(front + rest) == Squash(front) + [create, Status(FirstId(rest)), MediaPublish(FirstId(rest))]
    ensures Posts(front + rest) <= Posts(front) + 2 && Checks(front + rest) <= Checks(front) + 5
    ensures Sleep(front + rest) <= Sleep(front) + 8
  {
    if r.Err? && Container(rest, create, r) {
      ContainerSquash(front, rest, create, r);
    } else {
      var block, last := rest[..|rest| - 1], rest[|rest| - 1];
      assert rest == block + [last] && block[0] == rest[0];
      PublishedSquash(front, block, last, create, parent);
    }
  }

  lemma ChildFails(run: Run, urls: seq<string>, r: Result<string, Fault>)
    requires var creates, n := ChildRequests(urls), |run.ids|;
      ChildrenReady(run.children, run.ids, creates) && n < |creates| && r.Err? && Container(run.rest, creates[n], r)
    ensures Squash(run.Trace()) <= ChildScript(ChildRequests(urls), ScriptIds(run, urls))
    ensures var t, c := run.Trace(), |ChildRequests(urls)|; Posts(t) <= c && Checks(t) <= 5 * c && Sleep(t) <= 8 * c
  {
    var creates, ids, n := ChildRequests(urls), ScriptIds(run, urls), |run.ids|;
    ChildrenSquash(run.children, run.ids, creates);
    ContainerSquash(Concat(run.children), run.rest, creates[n], r);
    ChildScriptPrefix(creates, ids, n + 1);
    assert ids[..n + 1][..n] == run.ids;
  }

  lemma {:induction false} ChildScriptPrefix(creates: seq<Request>, ids: seq<string>, n: nat)
    requires n <= |ids| <= |creates|
    ensures ChildScript(creates, ids[..n]) <= ChildScript(creates, ids)
  {
    if n < |ids| {
      ChildScriptPrefix(creates, ids[..|ids| - 1], n);
      assert ids[..|ids| - 1][..n] == ids[..n];
    } else {
      assert ids[..n] == ids;
    }
  }

  /** The requests of an undisturbed Facebook publication. */
  function FacebookScript(urls: seq<string>, body: string, ids: seq<string>): seq<Request>
    requires |urls| >= 1
  {
    if |urls| == 1 then [Photo(urls[0], body)]
    else seq(|urls|, i requires 0 <= i < |urls| => UnpublishedPhoto(urls[i])) + [Feed(body, ids)]
  }

  function Requests(sent: seq<Exchange>): seq<Request> {
    seq(|sent|, i requires 0 <= i < |sent| => sent[i].request)
  }

  /**
   * A Facebook run sends a prefix of its script, all of it on success, so at most n + 1 requests (one for one
   * image); the post names the ids that were given for the images, in slide order.
   */
  lemma FacebookFollowsScript(
    sent: seq<Exchange>, ids: seq<string>, urls: seq<string>, body: string, r: Result<string, Fault>)
    requires |urls| >= 1 && FacebookRun(sent, ids, urls, body, r)
    ensures Requests(sent) <= FacebookScript(urls, body, ids)
    ensures r.Ok? ==> Requests(sent) == FacebookScript(urls, body, ids) && Gives(sent[|sent| - 1].response, r.value)
    ensures |sent| <= if |urls| == 1 then 1 else |urls| + 1
    ensures |urls| > 1 && r.Ok? ==>
      && |ids| == |urls|
      && forall i :: 0 <= i < |urls| ==>
        sent[i].request == UnpublishedPhoto(urls[i]) && Gives(sent[i].response, ids[i])
  {
  }
}
