/** The `query_graph` path of src/graphify_daemon/graph_query_api/tools.py: concurrent requests, each against
    the one snapshot it captured, sharing a cache while the writer publishes. */
module QueryApi {
  import opened Collections
  import opened Snapshot
  import opened QueryCache

  /** The arguments as the client sent them, of the right types. */
  datatype Arguments = Arguments(
    question: string,
    mode: Option<string>,
    depth: Option<int>,
    tokenBudget: Option<int>,
    contextFilter: Option<seq<string>>)

  /** What the input schema of `query_graph` lets through. */
  predicate ValidArguments(a: Arguments) {
    && (a.mode.Some? ==> a.mode.value in {"bfs", "dfs"})
    && (a.depth.Some? ==> 1 <= a.depth.value <= 6)
    && (a.tokenBudget.Some? ==> 1 <= a.tokenBudget.value <= 20000)
    && (a.contextFilter.Some? ==> |a.contextFilter.value| <= 50)
  }

  /** The query library; nothing when it raises. */
  type Querier = (Graph, string, string, int, int, Option<seq<string>>) -> Option<string>

  function OrElse<T>(o: Option<T>, default: T): T { if o.Some? then o.value else default }

  /** `_tool_query_graph`. */
  function Direct(query: Querier, g: Graph, a: Arguments): Option<string> {
    query(g, a.question, OrElse(a.mode, "bfs"), OrElse(a.depth, 3), OrElse(a.tokenBudget, 2000), a.contextFilter)
  }

  /** The cache key: an empty filter list is filed as no filter. */
  function KeyFor(version: nat, a: Arguments): Key {
    Key(version, a.question, OrElse(a.mode, "bfs"), OrElse(a.depth, 3), OrElse(a.tokenBudget, 2000),
        if a.contextFilter == Some([]) then None else a.contextFilter)
  }

  /** A given mode, depth or budget is what the library is asked for, and an omitted one is "bfs", 3 or 2000. */
  lemma AsksWhatWasSent(query: Querier, g: Graph, a: Arguments, mode: string, depth: int, budget: int)
    requires a.mode == Some(mode) || (a.mode == None && mode == "bfs")
    requires a.depth == Some(depth) || (a.depth == None && depth == 3)
    requires a.tokenBudget == Some(budget) || (a.tokenBudget == None && budget == 2000)
    ensures Direct(query, g, a) == query(g, a.question, mode, depth, budget, a.contextFilter)
    ensures forall v ::
              var filters := if a.contextFilter == Some([]) then None else a.contextFilter;
              KeyFor(v, a) == Key(v, a.question, mode, depth, budget, filters)
  {
  }

  /** Sent or left out, the two ask for the same. */
  predicate SameAfterDefault<T(==)>(a: Option<T>, b: Option<T>, default: T) {
    a == b || (a in {None, Some(default)} && b in {None, Some(default)})
  }

  /** Two requests share a key exactly when they captured the same version and ask the same question of it, after the
      defaults and with an empty filter list read as none. */
  lemma KeySharedExactly(v: nat, a: Arguments, w: nat, b: Arguments)
    ensures KeyFor(v, a) == KeyFor(w, b) <==>
            && v == w && a.question == b.question
            && SameAfterDefault(a.mode, b.mode, "bfs")
            && SameAfterDefault(a.depth, b.depth, 3)
            && SameAfterDefault(a.tokenBudget, b.tokenBudget, 2000)
            && SameAfterDefault(a.contextFilter, b.contextFilter, [])
  {
  }

  /** What validation lets through: either mode, every depth from 1 to 6, every budget from 1 to 20000, up to 50
      filters, each of them sent or left out, and nothing else. */
  lemma ValidExactly(a: Arguments)
    ensures ValidArguments(a) <==>
            && a.mode in {None, Some("bfs"), Some("dfs")}
            && a.depth in {None, Some(1), Some(2), Some(3), Some(4), Some(5), Some(6)}
            && (a.tokenBudget == None || 0 < a.tokenBudget.value < 20001)
            && (a.contextFilter == None || |a.contextFilter.value| < 51)
  {
    assert a.mode.Some? ==> a.mode == Some(a.mode.value);
    assert a.depth.Some? ==> a.depth == Some(a.depth.value);
  }

  datatype Reply = NotReady | Invalid | ToolFailed | Text(text: string)

  /** A request has captured a snapshot, has missed the cache, has computed its answer, or is done. */
  datatype Stage = Captured | Missed | Computed(text: string) | Done(reply: Reply)

  datatype Request = Request(snapshot: Option<GraphSnapshot>, args: Arguments, stage: Stage)

  /** `published` is history: every snapshot published so far, in order. */
  datatype Server = Server(
    holder: Holder,
    cache: Lru,
    requests: seq<Request>,
    published: seq<GraphSnapshot>)

  datatype Event =
    | Publish(graph: Graph, communities: Communities)
    | Arrive(args: Arguments)
    | Proceed(request: nat)

  function Init(maxsize: int): Server { Server(EMPTY_HOLDER, EmptyLru(maxsize), [], []) }

  /** The next action of one request; each use of the cache holds its lock. */
  function Step(query: Querier, s: Server, i: nat): Server
    requires i < |s.requests|
  {
    var r := s.requests[i];
    match r.stage
    case Captured =>
      if r.snapshot.None? then s.(requests := s.requests[i := r.(stage := Done(NotReady))])
      else if !ValidArguments(r.args) then s.(requests := s.requests[i := r.(stage := Done(Invalid))])
      else
        var k := KeyFor(r.snapshot.value.version, r.args);
        s.(cache := Looked(s.cache, k),
           requests := s.requests[i := r.(stage := if k in s.cache.entries.vals
                                                   then Done(Text(s.cache.entries.vals[k])) else Missed)])
    case Missed =>
      if r.snapshot.None? then s
      else
        var answer := Direct(query, r.snapshot.value.graph, r.args);
        s.(requests := s.requests[i := r.(stage := if answer.Some? then Computed(answer.value) else Done(ToolFailed))])
    case Computed(text) =>
      if r.snapshot.None? then s
      else
        s.(cache := Stored(s.cache, KeyFor(r.snapshot.value.version, r.args), text),
           requests := s.requests[i := r.(stage := Done(Text(text)))])
    case Done(_) => s
  }

  function Apply(query: Querier, s: Server, e: Event): Server {
    match e
    case Publish(g, communities) =>
      var h := Published(s.holder, g, communities);
      s.(holder := h, published := s.published + [h.current.value])
    case Arrive(a) => s.(requests := s.requests + [Request(s.holder.current, a, Captured)])
    case Proceed(i) => if i < |s.requests| then Step(query, s, i) else s
  }

  function Serve(query: Querier, maxsize: int, events: seq<Event>): Server {
    if |events| == 0 then Init(maxsize)
    else Apply(query, Serve(query, maxsize, events[..|events| - 1]), events[|events| - 1])
  }

  /** `_dispatch` for one request with the cache to itself. */
  method Dispatch(query: Querier, cache: QueryCache, snapshot: Option<GraphSnapshot>, args: Arguments)
    returns (reply: Reply)
    modifies cache
    ensures snapshot.None? ==> reply == NotReady && cache.View() == old(cache.View())
    ensures snapshot.Some? && !ValidArguments(args) ==> reply == Invalid && cache.View() == old(cache.View())
    ensures snapshot.Some? && ValidArguments(args) ==>
      var k, answer := KeyFor(snapshot.value.version, args), Direct(query, snapshot.value.graph, args);
      && cache.View() == Served(old(cache.View()), k, (x: Key) => answer)
      && reply == if k in old(cache.entries).vals then Text(old(cache.entries).vals[k])
                  else if answer.Some? then Text(answer.value) else ToolFailed
  {
    if snapshot.None? {
      return NotReady;
    }
    if !ValidArguments(args) {
      return Invalid;
    }
    var k := KeyFor(snapshot.value.version, args);
    var cached := cache.Get(k);
    if cached.Some? {
      return Text(cached.value);
    }
    var answer := Direct(query, snapshot.value.graph, args);
    if answer.None? {
      return ToolFailed;
    }
    cache.Set(k, answer.value);
    reply := Text(answer.value);
  }

  /** The query library answers an empty filter list as it answers no filter, on all that validation lets through. */
  ghost predicate EmptyFilterIsNoFilter(query: Querier) {
    forall g, a: Arguments :: ValidArguments(a) && a.contextFilter == Some([]) ==>
      Direct(query, g, a) == Direct(query, g, a.(contextFilter := None))
  }

  /** A cached text is what the query gives on the snapshot that the key names. */
  ghost predicate EntryIsRight(query: Querier, published: seq<GraphSnapshot>, k: Key, text: string) {
    && 1 <= k.version <= |published|
    && query(published[k.version - 1].graph, k.question, k.mode, k.depth, k.tokenBudget, k.filters) == Some(text)
  }

  /** What is cached for a request answers it. */
  ghost predicate EntriesAnswer(query: Querier, s: Server, r: Request) {
    r.snapshot.Some? && ValidArguments(r.args) ==>
      var k := KeyFor(r.snapshot.value.version, r.args);
      k in s.cache.entries.vals ==> Direct(query, r.snapshot.value.graph, r.args) == Some(s.cache.entries.vals[k])
  }

  ghost predicate RequestIsRight(query: Querier, published: seq<GraphSnapshot>, r: Request) {
    && (r.snapshot.Some? ==>
          && 1 <= r.snapshot.value.version <= |published|
          && published[r.snapshot.value.version - 1] == r.snapshot.value)
    && (r.stage.Missed? || r.stage.Computed? ==> ValidArguments(r.args))
    && (r.stage.Computed? && r.snapshot.Some? ==> Direct(query, r.snapshot.value.graph, r.args) == Some(r.stage.text))
    && (r.stage.Done? && r.stage.reply.Text? ==>
          r.snapshot.Some? && Direct(query, r.snapshot.value.graph, r.args) == Some(r.stage.reply.text))
  }

  /** A version names one published snapshot, and the last one is current. */
  ghost predicate HolderInv(s: Server) {
    && s.holder.nextVersion == |s.published| + 1
    && s.holder.current == (if s.published == [] then None else Some(s.published[|s.published| - 1]))
    && (forall v :: 0 <= v < |s.published| ==> s.published[v].version == v + 1)
  }

  ghost predicate CacheInv(query: Querier, maxsize: int, s: Server) {
    && s.cache.maxsize == maxsize
    && if maxsize < 1 then s.cache.entries == EmptyDict()
       else forall k :: k in s.cache.entries.vals ==> EntryIsRight(query, s.published, k, s.cache.entries.vals[k])
  }

  ghost predicate ServerInv(query: Querier, maxsize: int, s: Server) {
    && HolderInv(s)
    && CacheInv(query, maxsize, s)
    && (forall i :: 0 <= i < |s.requests| ==> RequestIsRight(query, s.published, s.requests[i]))
  }

  /** Querying with what a key says is querying with the arguments that were filed under it. */
  lemma FiledUnderItsAnswer(query: Querier, g: Graph, version: nat, a: Arguments)
    requires EmptyFilterIsNoFilter(query) && ValidArguments(a)
    ensures var k := KeyFor(version, a);
      query(g, k.question, k.mode, k.depth, k.tokenBudget, k.filters) == Direct(query, g, a)
  {
    if a.contextFilter == Some([]) {
      assert Direct(query, g, a) == Direct(query, g, a.(contextFilter := None));
    }
  }

  lemma CachedAnswers(query: Querier, maxsize: int, s: Server, r: Request)
    requires CacheInv(query, maxsize, s) && RequestIsRight(query, s.published, r)
    requires maxsize < 1 || EmptyFilterIsNoFilter(query)
    ensures EntriesAnswer(query, s, r)
  {
    if r.snapshot.Some? && maxsize >= 1 && ValidArguments(r.args) {
      var k := KeyFor(r.snapshot.value.version, r.args);
      assert k in s.cache.entries.vals ==> EntryIsRight(query, s.published, k, s.cache.entries.vals[k]);
      FiledUnderItsAnswer(query, r.snapshot.value.graph, r.snapshot.value.version, r.args);
    }
  }

  lemma StepRequest(query: Querier, s: Server, i: nat)
    requires i < |s.requests| && RequestIsRight(query, s.published, s.requests[i])
    requires EntriesAnswer(query, s, s.requests[i])
    ensures var s' := Step(query, s, i);
      && s'.published == s.published && s'.holder == s.holder
      && s'.requests == s.requests[i := s'.requests[i]]
      && RequestIsRight(query, s.published, s'.requests[i])
  {
  }

  lemma StoreIsRight(query: Querier, maxsize: int, s: Server, k: Key, text: string)
    requires CacheInv(query, maxsize, s)
    requires maxsize >= 1 ==> EntryIsRight(query, s.published, k, text)
    ensures CacheInv(query, maxsize, s.(cache := Stored(s.cache, k, text)))
  {
  }

  lemma StepCache(query: Querier, maxsize: int, s: Server, i: nat)
    requires CacheInv(query, maxsize, s) && i < |s.requests| && RequestIsRight(query, s.published, s.requests[i])
    requires maxsize < 1 || EmptyFilterIsNoFilter(query)
    ensures CacheInv(query, maxsize, Step(query, s, i))
  {
    var r := s.requests[i];
    if r.stage.Computed? && r.snapshot.Some? {
      var k := KeyFor(r.snapshot.value.version, r.args);
      if maxsize >= 1 {
        FiledUnderItsAnswer(query, r.snapshot.value.graph, r.snapshot.value.version, r.args);
      }
      StoreIsRight(query, maxsize, s, k, r.stage.text);
    }
  }

  lemma OutsideKeeps(query: Querier, maxsize: int, s: Server, e: Event)
    requires ServerInv(query, maxsize, s) && !e.Proceed?
    ensures ServerInv(query, maxsize, Apply(query, s, e))
  {
    var s' := Apply(query, s, e);
    forall i | 0 <= i < |s'.requests|
      ensures RequestIsRight(query, s'.published, s'.requests[i])
    {
      if i < |s.requests| {
        assert RequestIsRight(query, s.published, s.requests[i]);
      }
    }
    forall k | maxsize >= 1 && k in s'.cache.entries.vals
      ensures EntryIsRight(query, s'.published, k, s'.cache.entries.vals[k])
    {
      assert EntryIsRight(query, s.published, k, s.cache.entries.vals[k]);
    }
  }

  lemma {:induction false} ServerHolds(query: Querier, maxsize: int, events: seq<Event>)
    requires maxsize < 1 || EmptyFilterIsNoFilter(query)
    ensures ServerInv(query, maxsize, Serve(query, maxsize, events))
  {
    if |events| > 0 {
      var before, e := events[..|events| - 1], events[|events| - 1];
      ServerHolds(query, maxsize, before);
      var s := Serve(query, maxsize, before);
      if !e.Proceed? {
        OutsideKeeps(query, maxsize, s, e);
      } else if e.request < |s.requests| {
        CachedAnswers(query, maxsize, s, s.requests[e.request]);
        StepRequest(query, s, e.request);
        StepCache(query, maxsize, s, e.request);
      }
    }
  }

  /** Every successful reply is the query evaluated on the one snapshot its request captured. */
  ghost predicate RepliesAreDirect(query: Querier, maxsize: int, events: seq<Event>) {
    var s := Serve(query, maxsize, events);
    forall i :: 0 <= i < |s.requests| && s.requests[i].stage.Done? && s.requests[i].stage.reply.Text? ==>
      && s.requests[i].snapshot.Some?
      && Direct(query, s.requests[i].snapshot.value.graph, s.requests[i].args) == Some(s.requests[i].stage.reply.text)
  }

  /** Caching is invisible, over every interleaving of publications, requests and evictions, exactly when
      nothing is ever cached or the query does not tell an empty filter list from no filter on any valid
      arguments. */
  lemma CachingIsInvisible(query: Querier, maxsize: int)
    ensures (forall events :: RepliesAreDirect(query, maxsize, events)) <==>
            maxsize < 1 || EmptyFilterIsNoFilter(query)
  {
    if maxsize < 1 || EmptyFilterIsNoFilter(query) {
      forall events
        ensures RepliesAreDirect(query, maxsize, events)
      {
        ServerHolds(query, maxsize, events);
      }
    } else {
      var g, empty: Arguments :| ValidArguments(empty) && empty.contextFilter == Some([]) &&
        Direct(query, g, empty) != Direct(query, g, empty.(contextFilter := None));
      var none := empty.(contextFilter := None);
      var events;
      if Direct(query, g, empty).Some? {
        events := SharedKeyConfuses(query, maxsize, g, empty, none);
      } else {
        events := SharedKeyConfuses(query, maxsize, g, none, empty);
      }
      assert !RepliesAreDirect(query, maxsize, events);
    }
  }

  lemma Extend(query: Querier, maxsize: int, events: seq<Event>, s: Server, e: Event)
    returns (events': seq<Event>, s': Server)
    requires s == Serve(query, maxsize, events)
    ensures s' == Serve(query, maxsize, events') && s' == Apply(query, s, e)
  {
    events', s' := events + [e], Apply(query, s, e);
    assert events'[..|events|] == events;
  }

  /** One request has arrived after one publication, and the cache is empty. */
  lemma ArriveFirst(query: Querier, maxsize: int, g: Graph, a: Arguments) returns (events: seq<Event>, s: Server)
    ensures s == Serve(query, maxsize, events) && s.cache == EmptyLru(maxsize)
    ensures s.holder.current == Some(GraphSnapshot(g, map[], 1))
    ensures s.requests == [Request(Some(GraphSnapshot(g, map[], 1)), a, Captured)]
  {
    events, s := [], Init(maxsize);
    events, s := Extend(query, maxsize, events, s, Publish(g, map[]));
    events, s := Extend(query, maxsize, events, s, Arrive(a));
  }

  /** One request served from an empty cache leaves its answer there. */
  lemma ServeFirst(query: Querier, maxsize: int, g: Graph, a: Arguments) returns (events: seq<Event>, s: Server)
    requires maxsize >= 1 && ValidArguments(a) && Direct(query, g, a).Some?
    ensures s == Serve(query, maxsize, events) && |s.requests| == 1
    ensures s.holder.current == Some(GraphSnapshot(g, map[], 1))
    ensures Lookup(s.cache.entries.vals, KeyFor(1, a)) == Direct(query, g, a)
  {
    events, s := ArriveFirst(query, maxsize, g, a);
    events, s := Extend(query, maxsize, events, s, Proceed(0));
    assert s.cache.entries == EmptyDict() && s.requests[0].stage.Missed?;
    events, s := Extend(query, maxsize, events, s, Proceed(0));
    assert s.cache.entries == EmptyDict() && s.requests[0].stage == Computed(Direct(query, g, a).value);
    events, s := Extend(query, maxsize, events, s, Proceed(0));
  }

  /** Two requests share a key and have different answers: the second is told the first one's. */
  lemma SharedKeyConfuses(query: Querier, maxsize: int, g: Graph, a: Arguments, b: Arguments)
    returns (events: seq<Event>)
    requires maxsize >= 1 && ValidArguments(a) && ValidArguments(b) && KeyFor(1, a) == KeyFor(1, b)
    requires Direct(query, g, a).Some? && Direct(query, g, a) != Direct(query, g, b)
    ensures !RepliesAreDirect(query, maxsize, events)
  {
    var s;
    events, s := ServeFirst(query, maxsize, g, a);
    events, s := Extend(query, maxsize, events, s, Arrive(b));
    assert s.requests[1] == Request(Some(GraphSnapshot(g, map[], 1)), b, Captured);
    events, s := Extend(query, maxsize, events, s, Proceed(1));
    assert s.requests[1].stage == Done(Text(Direct(query, g, a).value));
  }

  /** A finished request was told what its case calls for: not ready without a snapshot, invalid when validation fails,
      and a failure only when its own query raises. */
  ghost predicate ReplyFits(query: Querier, r: Request) {
    && ((r.stage.Missed? || r.stage.Computed?) ==> r.snapshot.Some? && ValidArguments(r.args))
    && (r.stage.Done? ==>
          && (r.stage.reply.NotReady? <==> r.snapshot.None?)
          && (r.stage.reply.Invalid? <==> r.snapshot.Some? && !ValidArguments(r.args))
          && (r.stage.reply.ToolFailed? ==> Direct(query, r.snapshot.value.graph, r.args).None?))
  }

  ghost predicate AllFit(query: Querier, s: Server) {
    forall i :: 0 <= i < |s.requests| ==> ReplyFits(query, s.requests[i])
  }

  lemma {:induction false} RepliesFit(query: Querier, maxsize: int, events: seq<Event>)
    ensures AllFit(query, Serve(query, maxsize, events))
  {
    if |events| > 0 {
      var before, e := events[..|events| - 1], events[|events| - 1];
      RepliesFit(query, maxsize, before);
      var s := Serve(query, maxsize, before);
      if e.Proceed? && e.request < |s.requests| {
        StepFits(query, s, e.request);
      }
    }
  }

  lemma StepFits(query: Querier, s: Server, i: nat)
    requires i < |s.requests| && AllFit(query, s)
    ensures AllFit(query, Step(query, s, i))
  {
    var r := s.requests[i];
    assert ReplyFits(query, r);
    assert Step(query, s, i).requests == s.requests[i := Step(query, s, i).requests[i]];
    if r.stage.Captured? {
    } else if r.stage.Missed? {
    } else {
    }
  }

  /** A later request never captures an older snapshot, and one version is one snapshot. */
  ghost predicate CapturesGrow(s: Server) {
    forall i, j :: 0 <= i < j < |s.requests| && s.requests[i].snapshot.Some? ==>
      && s.requests[j].snapshot.Some?
      && s.requests[i].snapshot.value.version <= s.requests[j].snapshot.value.version
      && (s.requests[i].snapshot.value.version == s.requests[j].snapshot.value.version ==>
            s.requests[i].snapshot == s.requests[j].snapshot)
  }

  /** What a request sees does not depend on the query library or on the cache. */
  ghost predicate CaptureInv(s: Server) {
    && HolderInv(s)
    && (forall i :: 0 <= i < |s.requests| && s.requests[i].snapshot.Some? ==>
          && 1 <= s.requests[i].snapshot.value.version <= |s.published|
          && s.published[s.requests[i].snapshot.value.version - 1] == s.requests[i].snapshot.value)
    && CapturesGrow(s)
  }

  lemma {:induction false} ReadersNeverGoBack(query: Querier, maxsize: int, events: seq<Event>)
    ensures CaptureInv(Serve(query, maxsize, events))
  {
    if |events| > 0 {
      var before, e := events[..|events| - 1], events[|events| - 1];
      ReadersNeverGoBack(query, maxsize, before);
      CaptureKept(query, Serve(query, maxsize, before), e);
    }
  }

  /** Events extend what was published, and leave captured snapshots alone; a new request captures the current one. */
  ghost predicate Extends(s: Server, s': Server) {
    && s.published <= s'.published && |s.requests| <= |s'.requests|
    && (forall i :: 0 <= i < |s.requests| ==> s'.requests[i].snapshot == s.requests[i].snapshot)
    && (forall i :: |s.requests| <= i < |s'.requests| ==> s'.requests[i].snapshot == s.holder.current)
  }

  lemma ApplyExtends(query: Querier, s: Server, e: Event)
    requires HolderInv(s)
    ensures Extends(s, Apply(query, s, e)) && HolderInv(Apply(query, s, e))
  {
  }

  lemma CaptureExtends(s: Server, s': Server)
    requires CaptureInv(s) && Extends(s, s') && HolderInv(s')
    ensures CaptureInv(s')
  {
  }

  lemma {:induction false} CaptureKept(query: Querier, s: Server, e: Event)
    requires CaptureInv(s)
    ensures CaptureInv(Apply(query, s, e))
  {
    ApplyExtends(query, s, e);
    CaptureExtends(s, Apply(query, s, e));
  }
}
