/**
 * relay/social/publishing.py: the requests one publication sends to Meta.
 *
 * The provider is an adversary: the answer to the k-th request of a client is an arbitrary value.
 */
module MetaPublishing {
  import opened Types

  /** A decoded body. A missing or falsy `id` is "". */
  datatype Body = NotJson | NotAnObject | Object(id: string, statusCode: string)

  /**
   * A request error, any other exception of the HTTP client (an identifier that makes no valid URL, say, in which case
   * nothing is sent), or an answer.
   */
  datatype Response = Unreachable | Broken | Answered(status: int, body: Body)

  /** The two caught exceptions, and any other one, which nothing in the delivery path catches. */
  datatype Fault = TransientError | PermanentError | Crash

  datatype Request =
    | Photo(url: string, caption: string)
    | UnpublishedPhoto(url: string)
    | Feed(message: string, attachedMedia: seq<string>)
    | Media(url: string, caption: string)
    | CarouselItem(url: string)
    | Carousel(children: seq<string>, caption: string)
    | MediaPublish(creationId: string)
    | Status(creationId: string)

  datatype Exchange = Exchange(request: Request, response: Response)

  /** What `_post` makes of a response. */
  function PostOutcome(r: Response): Result<Body, Fault> {
    if r.Broken? then Err(Crash)
    else if r.Unreachable? || r.status == 429 || r.status >= 500 then Err(TransientError)
    else if r.status >= 400 || r.body.NotJson? then Err(PermanentError)
    else Ok(r.body)
  }

  /** `_id` */
  function IdOf(body: Body): Result<string, Fault> {
    if !body.Object? then Err(Crash) else if body.id == "" then Err(PermanentError) else Ok(body.id)
  }

  /** The identifier a response to a POST carries, or the error it raises. */
  function CreatedId(r: Response): Result<string, Fault> {
    match PostOutcome(r)
    case Err(fault) => Err(fault)
    case Ok(body) => IdOf(body)
  }

  /**
   * Which answers carry an identifier, which are worth a retry, and which are final. An id is given only by a JSON
   * object in an answer below 400.
   */
  lemma CreatedIdMeaning(r: Response)
    ensures CreatedId(r) == Err(TransientError) <==>
      r.Unreachable? || (r.Answered? && (r.status == 429 || r.status >= 500))
    ensures CreatedId(r) == Err(PermanentError) <==>
      && r.Answered? && r.status != 429 && r.status < 500
      && (r.status >= 400 || r.body.NotJson? || (r.body.Object? && r.body.id == ""))
    ensures CreatedId(r) == Err(Crash) <==> r.Broken? || (r.Answered? && r.status < 400 && r.body.NotAnObject?)
    ensures forall id: string :: CreatedId(r) == Ok(id) <==>
      r.Answered? && r.status < 400 && r.body.Object? && r.body.id == id != ""
  {
  }

  /** What one status check says: finished, not yet, or an error. */
  function PollOutcome(r: Response): Result<bool, Fault> {
    if r.Broken? then Err(Crash)
    else if r.Unreachable? || r.status == 429 || r.status >= 500 then Err(TransientError)
    else if r.status >= 400 || r.body.NotJson? then Err(PermanentError)
    else if r.body.NotAnObject? then Err(Crash)
    else if r.body.statusCode == "FINISHED" then Ok(true)
    else if r.body.statusCode in {"ERROR", "EXPIRED"} then Err(PermanentError)
    else Ok(false)
  }

  /** Which answers end the polling, and how: only FINISHED ends it well. */
  lemma PollMeaning(r: Response)
    ensures PollOutcome(r) == Ok(true) <==>
      r.Answered? && r.status < 400 && r.body.Object? && r.body.statusCode == "FINISHED"
    ensures PollOutcome(r) == Ok(false) <==>
      r.Answered? && r.status < 400 && r.body.Object? && r.body.statusCode !in {"FINISHED", "ERROR", "EXPIRED"}
    ensures PollOutcome(r) == Err(TransientError) <==>
      r.Unreachable? || (r.Answered? && (r.status == 429 || r.status >= 500))
    ensures PollOutcome(r) == Err(PermanentError) <==>
      && r.Answered? && r.status != 429 && r.status < 500
      && (r.status >= 400 || r.body.NotJson? || (r.body.Object? && r.body.statusCode in {"ERROR", "EXPIRED"}))
    ensures PollOutcome(r) == Err(Crash) <==> r.Broken? || (r.Answered? && r.status < 400 && r.body.NotAnObject?)
  {
  }

  /** The exchanges of one polling loop on container `id` that ended with `r`. */
  ghost predicate Polls(polls: seq<Exchange>, id: string, r: Result<bool, Fault>) {
    && 1 <= |polls| <= 5
    && (forall i :: 0 <= i < |polls| ==> polls[i].request == Status(id))
    && (forall i :: 0 <= i < |polls| - 1 ==> PollOutcome(polls[i].response) == Ok(false))
    && var last := PollOutcome(polls[|polls| - 1].response);
       if last == Ok(false) then |polls| == 5 && r == Err(TransientError) else r == last
  }

  /** Status checks that all said "not yet". */
  ghost predicate Pending(polls: seq<Exchange>, id: string) {
    forall i :: 0 <= i < |polls| ==> polls[i].request == Status(id) && PollOutcome(polls[i].response) == Ok(false)
  }

  lemma NextPoll(pending: seq<Exchange>, id: string, response: Response)
    requires Pending(pending, id) && |pending| < 5
    ensures var polls, outcome := pending + [Exchange(Status(id), response)], PollOutcome(response);
      && (outcome != Ok(false) ==> Polls(polls, id, outcome))
      && (outcome == Ok(false) ==> Pending(polls, id))
      && (outcome == Ok(false) && |polls| == 5 ==> Polls(polls, id, Err(TransientError)))
  {
    var polls := pending + [Exchange(Status(id), response)];
    assert forall i :: 0 <= i < |pending| ==> polls[i] == pending[i];
  }

  /** The exchanges of creating one container and waiting for it: it became ready as `r`, or failed with `r`. */
  ghost predicate Container(block: seq<Exchange>, create: Request, r: Result<string, Fault>) {
    && 1 <= |block| && block[0].request == create
    && match CreatedId(block[0].response)
       case Err(fault) => |block| == 1 && r == Err(fault)
       case Ok(id) =>
         if r.Ok? then r.value == id && Polls(block[1..], id, Ok(true)) else Polls(block[1..], id, Err(r.error))
  }

  function ChildRequests(urls: seq<string>): seq<Request> {
    if |urls| == 1 then [] else seq(|urls|, i requires 0 <= i < |urls| => CarouselItem(urls[i]))
  }

  function ParentRequest(urls: seq<string>, body: string, ids: seq<string>): Request
    requires |urls| >= 1
  {
    if |urls| == 1 then Media(urls[0], body) else Carousel(ids, body)
  }

  /** An Instagram run: the finished children with their ids, the parent's id, and the exchanges after the children. */
  datatype Run = Run(children: seq<seq<Exchange>>, ids: seq<string>, parent: string, rest: seq<Exchange>) {
    function Trace(): seq<Exchange> {
      Concat(children) + rest
    }
  }

  function Concat(blocks: seq<seq<Exchange>>): seq<Exchange> {
    if blocks == [] then [] else Concat(blocks[..|blocks| - 1]) + blocks[|blocks| - 1]
  }

  /** The first |ids| children were created, and waited for, in order. */
  ghost predicate ChildrenReady(children: seq<seq<Exchange>>, ids: seq<string>, creates: seq<Request>) {
    && |children| == |ids| <= |creates|
    && forall i :: 0 <= i < |ids| ==> Container(children[i], creates[i], Ok(ids[i]))
  }

  lemma NoChildren(creates: seq<Request>)
    ensures ChildrenReady([], [], creates)
  {
  }

  lemma LastChild(children: seq<seq<Exchange>>, ids: seq<string>, creates: seq<Request>)
    requires ChildrenReady(children, ids, creates) && children != []
    ensures var n := |ids| - 1;
      |children| == |ids| <= |creates|
      && ChildrenReady(children[..n], ids[..n], creates) && Container(children[n], creates[n], Ok(ids[n]))
  {
  }

  lemma ChildReady(children: seq<seq<Exchange>>, ids: seq<string>, creates: seq<Request>, block: seq<Exchange>,
    id: string)
    requires ChildrenReady(children, ids, creates) && |ids| < |creates|
    requires Container(block, creates[|ids|], Ok(id))
    ensures ChildrenReady(children + [block], ids + [id], creates)
    ensures Concat(children + [block]) == Concat(children) + block
  {
    assert (children + [block])[..|children|] == children;
  }

  ghost predicate InstagramRun(run: Run, urls: seq<string>, body: string, r: Result<string, Fault>)
    requires |urls| >= 1
  {
    var creates := ChildRequests(urls);
    && ChildrenReady(run.children, run.ids, creates)
    && if |run.ids| < |creates| then r.Err? && Container(run.rest, creates[|run.ids|], r)
       else ParentRun(run.rest, ParentRequest(urls, body, run.ids), run.parent, r)
  }

  /** The exchanges that create the container to publish, wait for it, and publish it if it became ready. */
  ghost predicate ParentRun(rest: seq<Exchange>, create: Request, parent: string, r: Result<string, Fault>) {
    || (r.Err? && Container(rest, create, r))
    || (var n := |rest| - 1;
        && n >= 0
        && Container(rest[..n], create, Ok(parent))
        && rest[n].request == MediaPublish(parent)
        && r == CreatedId(rest[n].response))
  }

  /** A Facebook run: the ids of the accepted uploads and everything sent. */
  ghost predicate FacebookRun(
    sent: seq<Exchange>, ids: seq<string>, urls: seq<string>, body: string, r: Result<string, Fault>)
    requires |urls| >= 1
  {
    if |urls| == 1 then
      |sent| == 1 && sent[0].request == Photo(urls[0], body) && r == CreatedId(sent[0].response)
    else
      var k := |ids|;
      && k <= |urls| && |sent| == k + 1
      && (forall i :: 0 <= i < k ==>
           sent[i].request == UnpublishedPhoto(urls[i]) && CreatedId(sent[i].response) == Ok(ids[i]))
      && r == CreatedId(sent[k].response)
      && sent[k].request == (if k < |urls| then UnpublishedPhoto(urls[k]) else Feed(body, ids))
      && (k < |urls| ==> r.Err?)
  }

  /** The requests sent, with the repetitions of a status check counted once. */
  function Squash(sent: seq<Exchange>): seq<Request> {
    if sent == [] then [] else
      var n := |sent| - 1;
      var last := sent[n].request;
      if last.Status? && n > 0 && sent[n - 1].request == last then Squash(sent[..n]) else Squash(sent[..n]) + [last]
  }

  /** Repeated status checks are two seconds apart, and nothing else waits. */
  function Sleep(sent: seq<Exchange>): int {
    2 * (|sent| - |Squash(sent)|)
  }

  lemma SquashAppend(sent: seq<Exchange>, e: Exchange)
    ensures Squash(sent + [e]) ==
      if e.request.Status? && sent != [] && sent[|sent| - 1].request == e.request then Squash(sent)
      else Squash(sent) + [e.request]
  {
    assert (sent + [e])[..|sent|] == sent;
  }

  class MetaPublishingClient {
    const responses: nat -> Response
    var log: seq<Exchange>
    var slept: int

    predicate Valid()
      reads this
    {
      slept == Sleep(log)
    }

    constructor (responses: nat -> Response)
      ensures this.responses == responses && log == [] && Valid()
    {
      this.responses := responses;
      log, slept := [], 0;
    }

    method Post(request: Request) returns (r: Result<Body, Fault>)
      requires Valid() && !request.Status?
      modifies this
      ensures Valid()
      ensures log == old(log) + [Exchange(request, responses(|old(log)|))]
      ensures r == PostOutcome(responses(|old(log)|))
      ensures slept == old(slept)
      ensures var answer := responses(|old(log)|);
        && (r == Err(TransientError) <==>
             answer.Unreachable? || (answer.Answered? && (answer.status == 429 || answer.status >= 500)))
        && (r == Err(PermanentError) <==>
             && answer.Answered? && answer.status != 429 && answer.status < 500
             && (answer.status >= 400 || answer.body.NotJson?))
        && (r == Err(Crash) <==> answer.Broken?)
        && (r.Ok? <==> answer.Answered? && answer.status < 400 && !answer.body.NotJson? && r.value == answer.body)
    {
      var response := responses(|log|);
      SquashAppend(log, Exchange(request, response));
      log := log + [Exchange(request, response)];
      if response.Broken? {
        return Err(Crash);
      }
      if response.Unreachable? {
        return Err(TransientError);
      }
      if response.status == 429 || response.status >= 500 {
        return Err(TransientError);
      }
      if response.status >= 400 {
        return Err(PermanentError);
      }
      if response.body.NotJson? {
        return Err(PermanentError);
      }
      return Ok(response.body);
    }

    method WaitForInstagramContainer(creationId: string) returns (r: Result<bool, Fault>, ghost polls: seq<Exchange>)
      requires Valid() && log != [] && !log[|log| - 1].request.Status?
      modifies this
      ensures Valid()
      ensures log == old(log) + polls && Polls(polls, creationId, r)
      ensures r.Ok? ==> r.value
      ensures 1 <= |polls| <= 5 && slept == old(slept) + 2 * (|polls| - 1)
      ensures forall i :: 0 <= i < |polls| - 1 ==>
        var answer := polls[i].response;
        answer.Answered? && answer.status < 400 && answer.body.Object?
        && answer.body.statusCode !in {"FINISHED", "ERROR", "EXPIRED"}
      ensures var answer := polls[|polls| - 1].response;
        var read := answer.Answered? && answer.status < 400 && answer.body.Object?;
        && (r.Ok? <==> read && answer.body.statusCode == "FINISHED")
        && (r == Err(TransientError) <==>
             || answer.Unreachable? || (answer.Answered? && (answer.status == 429 || answer.status >= 500))
             || (read && answer.body.statusCode !in {"FINISHED", "ERROR", "EXPIRED"} && |polls| == 5))
        && (r == Err(PermanentError) <==>
             || (answer.Answered? && answer.status != 429 && 400 <= answer.status < 500)
             || (answer.Answered? && answer.status < 400 && answer.body.NotJson?)
             || (read && answer.body.statusCode in {"ERROR", "EXPIRED"}))
        && (r == Err(Crash) <==>
          answer.Broken? || (answer.Answered? && answer.status < 400 && answer.body.NotAnObject?))
    {
      hide Polls, Squash;
      polls := [];
      for attempt := 0 to 5
        invariant |polls| == attempt && log == old(log) + polls && Pending(polls, creationId)
        invariant attempt == 5 ==> Polls(polls, creationId, Err(TransientError))
        invariant slept == Sleep(log) + if 1 <= attempt <= 4 then 2 else 0
        invariant attempt > 0 ==> log[|log| - 1].request == Status(creationId)
        invariant slept == old(slept) + if attempt == 5 then 8 else 2 * attempt
        invariant forall i :: 0 <= i < |polls| ==>
          var answer := polls[i].response;
          answer.Answered? && answer.status < 400 && answer.body.Object?
          && answer.body.statusCode !in {"FINISHED", "ERROR", "EXPIRED"}
      {
        var response := responses(|log|);
        SquashAppend(log, Exchange(Status(creationId), response));
        NextPoll(polls, creationId, response);
        log := log + [Exchange(Status(creationId), response)];
        polls := polls + [Exchange(Status(creationId), response)];
        if response.Broken? {
          return Err(Crash), polls;
        }
        if response.Unreachable? {
          return Err(TransientError), polls;
        }
        if response.status == 429 || response.status >= 500 {
          return Err(TransientError), polls;
        }
        if response.status >= 400 {
          return Err(PermanentError), polls;
        }
        if response.body.NotJson? {
          return Err(PermanentError), polls;
        }
        if response.body.NotAnObject? {
          return Err(Crash), polls;
        }
        if response.body.statusCode == "FINISHED" {
          return Ok(true), polls;
        }
        if response.body.statusCode in {"ERROR", "EXPIRED"} {
          return Err(PermanentError), polls;
        }
        if attempt < 4 {
          slept := slept + 2;
        }
      }
      return Err(TransientError), polls;
    }

    /** The steps the source repeats for every container: post, `_id`, wait. */
    method CreateContainer(request: Request) returns (r: Result<string, Fault>, ghost block: seq<Exchange>)
      requires Valid() && !request.Status?
      modifies this
      ensures Valid()
      ensures log == old(log) + block && Container(block, request, r)
    {
      block := [Exchange(request, responses(|log|))];
      var created := Post(request);
      if created.Err? {
        return Err(created.error), block;
      }
      r := IdOf(created.value);
      if r.Err? {
        return;
      }
      var finished, polls := WaitForInstagramContainer(r.value);
      block := block + polls;
      assert block[1..] == polls;
      if finished.Err? {
        return Err(finished.error), block;
      }
    }

    /** The steps the source repeats for both kinds of Instagram publication: container, then media_publish. */
    method PublishContainer(request: Request)
      returns (r: Result<string, Fault>, ghost parent: string, ghost rest: seq<Exchange>)
      requires Valid() && !request.Status?
      modifies this
      ensures Valid()
      ensures log == old(log) + rest && ParentRun(rest, request, parent, r)
    {
      var container, block := CreateContainer(request);
      parent, rest := "", block;
      if container.Err? {
        return container, parent, rest;
      }
      var creationId := container.value;
      parent := creationId;
      rest := block + [Exchange(MediaPublish(creationId), responses(|log|))];
      assert rest[..|block|] == block;
      var published := Post(MediaPublish(creationId));
      if published.Err? {
        return Err(published.error), parent, rest;
      }
      r := IdOf(published.value);
    }

    method PublishFacebookCarousel(body: string, urls: seq<string>)
      returns (r: Result<string, Fault>, ghost ids: seq<string>, ghost sent: seq<Exchange>)
      requires Valid() && |urls| > 1
      modifies this
      ensures Valid()
      ensures log == old(log) + sent && FacebookRun(sent, ids, urls, body, r)
    {
      var mediaIds := [];
      ids, sent := [], [];
      for i := 0 to |urls|
        invariant Valid() && mediaIds == ids && |ids| == |sent| == i && log == old(log) + sent
        invariant forall j :: 0 <= j < i ==>
          sent[j].request == UnpublishedPhoto(urls[j]) && CreatedId(sent[j].response) == Ok(ids[j])
      {
        sent := sent + [Exchange(UnpublishedPhoto(urls[i]), responses(|log|))];
        var uploaded := Post(UnpublishedPhoto(urls[i]));
        if uploaded.Err? {
          return Err(uploaded.error), ids, sent;
        }
        r := IdOf(uploaded.value);
        if r.Err? {
          return;
        }
        mediaIds := mediaIds + [r.value];
        ids := mediaIds;
      }
      sent := sent + [Exchange(Feed(body, mediaIds), responses(|log|))];
      var published := Post(Feed(body, mediaIds));
      if published.Err? {
        return Err(published.error), ids, sent;
      }
      r := IdOf(published.value);
    }

    method PublishInstagramCarousel(body: string, urls: seq<string>) returns (r: Result<string, Fault>, ghost run: Run)
      requires Valid() && |urls| > 1
      modifies this
      ensures Valid()
      ensures log == old(log) + run.Trace() && InstagramRun(run, urls, body, r)
    {
      hide Container, ChildrenReady, ParentRun, Squash;
      var childIds := [];
      ghost var children: seq<seq<Exchange>> := [];
      ghost var creates := ChildRequests(urls);
      NoChildren(creates);
      for i := 0 to |urls|
        invariant Valid() && |childIds| == |children| == i && log == old(log) + Concat(children)
        invariant ChildrenReady(children, childIds, creates)
      {
        var child, block := CreateContainer(CarouselItem(urls[i]));
        if child.Err? {
          return child, Run(children, childIds, "", block);
        }
        ChildReady(children, childIds, creates, block, child.value);
        childIds := childIds + [child.value];
        children := children + [block];
      }
      ghost var parent, rest;
      r, parent, rest := PublishContainer(Carousel(childIds, body));
      run := Run(children, childIds, parent, rest);
    }

    method PublishImages(channel: Channel, body: string, urls: seq<string>)
      returns (r: Result<string, Fault>, ghost ids: seq<string>, ghost run: Run)
      requires Valid()
      modifies this
      ensures Valid()
      ensures !(1 <= |urls| <= 10) || channel == OtherChannel ==> log == old(log) && r == Err(PermanentError)
      ensures 1 <= |urls| <= 10 && channel == FacebookPage ==>
        && |old(log)| <= |log| && log[..|old(log)|] == old(log)
        && FacebookRun(log[|old(log)|..], ids, urls, body, r)
      ensures 1 <= |urls| <= 10 && channel == InstagramBusiness ==>
        log == old(log) + run.Trace() && InstagramRun(run, urls, body, r)
    {
      ids, run := [], Run([], [], "", []);
      if !(1 <= |urls| <= 10) {
        return Err(PermanentError), ids, run;
      }
      if channel == FacebookPage {
        if |urls| > 1 {
          ghost var sent;
          r, ids, sent := PublishFacebookCarousel(body, urls);
          return;
        }
        var response := Post(Photo(urls[0], body));
        if response.Err? {
          return Err(response.error), ids, run;
        }
        r := IdOf(response.value);
        return;
      }
      if channel == InstagramBusiness {
        if |urls| > 1 {
          r, run := PublishInstagramCarousel(body, urls);
          return;
        }
        ghost var parent, rest;
        r, parent, rest := PublishContainer(Media(urls[0], body));
        run := Run([], [], parent, rest);
        return;
      }
      return Err(PermanentError), ids, run;
    }
  }
}
