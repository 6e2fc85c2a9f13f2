/** The scheduler's cache of NodeTwin states (and its twin of hardware facts):
    checked under a read lock, checked again and rebuilt under the write lock.
    A critical section is one step; any number of callers interleave. */
module TwinCache {
  import opened Results

  /** Item i of a listing: the node it names, empty for none, and its status. */
  datatype Item<T> = Item(node: string, status: T)

  /** The map a listing builds. */
  function MapOf<T>(items: seq<Item<T>>): map<string, T> {
    if items == [] then map[]
    else
      var n := |items| - 1;
      if items[n].node != "" then MapOf(items[..n])[items[n].node := items[n].status] else MapOf(items[..n])
  }

  /** Every named node is there, with the status of the last item that names it. */
  lemma {:induction false} MapHoldsLast<T>(items: seq<Item<T>>, node: string)
    ensures node in MapOf(items) <==> node != "" && exists i :: 0 <= i < |items| && items[i].node == node
    ensures node in MapOf(items) ==>
      exists i :: 0 <= i < |items| && items[i].node == node && items[i].status == MapOf(items)[node]
                  && forall j :: i < j < |items| ==> items[j].node != node
  {
    if items != [] {
      var n := |items| - 1;
      MapHoldsLast(items[..n], node);
      if items[n].node == node {
        assert items[n].node == node;
      } else if node in MapOf(items[..n]) {
        var i :| 0 <= i < n && items[..n][i].node == node && items[..n][i].status == MapOf(items[..n])[node]
                 && forall j :: i < j < n ==> items[..n][j].node != node;
        assert items[i].node == node;
        forall j | i < j < |items| ensures items[j].node != node {
          if j < n {
            assert items[..n][j].node != node;
          }
        }
      } else if exists i :: 0 <= i < |items| && items[i].node == node {
        var i :| 0 <= i < |items| && items[i].node == node;
        assert items[..n][i].node == node;
      }
    }
  }

  // --- The two critical sections --------------------------------------------------------

  /** The package variables the locks protect. */
  datatype Store<T> = Store(entry: Option<map<string, T>>, refreshed: int)

  predicate Fresh<T>(c: Store<T>, now: int, ttl: int) {
    now - c.refreshed < ttl && c.entry.Some?
  }

  /** The section under the read lock: the map when it is fresh. */
  function Checked<T>(c: Store<T>, now: int, ttl: int): Option<map<string, T>> {
    if Fresh(c, now, ttl) then c.entry else None
  }

  /** The section under the write lock, when the second check fails: listing is
      None without a reader or when it fails, done when it is complete. */
  function Rebuilt<T>(c: Store<T>, listing: Option<seq<Item<T>>>, done: int): (map<string, T>, Store<T>) {
    if listing.None? then (map[], c)
    else var states := MapOf(listing.value); (states, Store(Some(states), done))
  }

  // --- Interleavings -------------------------------------------------------------------

  datatype Build<T> = Build(content: map<string, T>, at: int)

  /** Where an answer came from: build k of the run, made by this call or found in
      the cache, or nowhere. */
  datatype Source = Made(k: nat) | Cached(k: nat) | Nothing

  datatype Answer<T> = Answer(states: map<string, T>, source: Source, asked: int)

  /** waiting are the callers between the two locks. */
  datatype World<T> = World(
    clock: int, store: Store<T>, waiting: set<nat>, builds: seq<Build<T>>, answers: seq<Answer<T>>)

  datatype Event<T> =
    | Check(caller: nat, now: int)
    | Locked(caller: nat, now: int, listing: Option<seq<Item<T>>>, done: int)

  predicate Enabled<T>(w: World<T>, e: Event<T>) {
    w.clock <= e.now
    && match e
       case Check(caller, _) => caller !in w.waiting
       case Locked(caller, now, _, done) => caller in w.waiting && now <= done
  }

  function Answered<T>(w: World<T>, states: map<string, T>, source: Source, asked: int): World<T> {
    w.(answers := w.answers + [Answer(states, source, asked)])
  }

  /** One section: an answer from the cache is the last build's. */
  function Next<T>(w: World<T>, e: Event<T>, ttl: int): World<T>
    requires w.store.entry.Some? ==> w.builds != []
  {
    var cached := Checked(w.store, e.now, ttl);
    match e
    case Check(caller, now) =>
      var v := w.(clock := now);
      if cached.Some? then Answered(v, cached.value, Cached(|w.builds| - 1), now) else v.(waiting := w.waiting + {caller})
    case Locked(caller, now, listing, done) =>
      var v := w.(waiting := w.waiting - {caller}, clock := done);
      if cached.Some? then Answered(v, cached.value, Cached(|w.builds| - 1), now)
      else
        var (states, store) := Rebuilt(w.store, listing, done);
        if listing.None? then Answered(v.(store := store), states, Nothing, now)
        else Answered(v.(store := store, builds := w.builds + [Build(states, done)]), states, Made(|w.builds|), now)
  }

  function Initial<T>(): World<T> {
    World(0, Store(None, 0), {}, [], [])
  }

  // --- What every interleaving keeps -----------------------------------------------------

  /** An answer is a whole build: one this call made, one less than the TTL old
      when it asked, or nothing at all. */
  ghost predicate Honest<T>(a: Answer<T>, builds: seq<Build<T>>, ttl: int) {
    match a.source
    case Nothing => a.states == map[]
    case Made(k) => k < |builds| && a.states == builds[k].content && builds[k].at >= a.asked
    case Cached(k) => k < |builds| && a.states == builds[k].content && builds[k].at <= a.asked < builds[k].at + ttl
  }

  ghost predicate BuildsSpaced<T>(builds: seq<Build<T>>, ttl: int) {
    forall i, j :: 0 <= i < j < |builds| ==> builds[j].at >= builds[i].at + ttl
  }

  ghost predicate NeverBack<T>(answers: seq<Answer<T>>) {
    forall i, j :: 0 <= i < j < |answers| && !answers[i].source.Nothing? && !answers[j].source.Nothing? ==>
      answers[i].source.k <= answers[j].source.k
  }

  ghost predicate Kept<T>(w: World<T>, ttl: int) {
    && (w.store.entry.None? <==> w.builds == [])
    && (w.store.entry.Some? ==>
          var last := w.builds[|w.builds| - 1];
          w.store.entry.value == last.content && w.store.refreshed == last.at <= w.clock)
    && BuildsSpaced(w.builds, ttl)
    && (forall i :: 0 <= i < |w.answers| ==> Honest(w.answers[i], w.builds, ttl))
    && NeverBack(w.answers)
  }

  lemma {:induction false} AnswerStep<T>(w: World<T>, builds: seq<Build<T>>, a: Answer<T>, ttl: int)
    requires forall i :: 0 <= i < |w.answers| ==> Honest(w.answers[i], w.builds, ttl)
    requires NeverBack(w.answers) && w.builds <= builds && Honest(a, builds, ttl)
    requires !a.source.Nothing? ==> a.source.k == |builds| - 1
    ensures var answers := w.answers + [a];
      (forall i :: 0 <= i < |answers| ==> Honest(answers[i], builds, ttl)) && NeverBack(answers)
  {
    forall i | 0 <= i < |w.answers|
      ensures Honest(w.answers[i], builds, ttl) && (!w.answers[i].source.Nothing? ==> w.answers[i].source.k < |builds|)
    {
      assert Honest(w.answers[i], w.builds, ttl);
    }
  }

  lemma {:induction false} KeptStep<T>(w: World<T>, e: Event<T>, ttl: int)
    requires ttl >= 0 && Kept(w, ttl) && Enabled(w, e)
    ensures Kept(Next(w, e, ttl), ttl)
  {
    var r := Next(w, e, ttl);
    if |r.answers| > |w.answers| {
      var a := r.answers[|w.answers|];
      assert r.answers == w.answers + [a];
      if |r.builds| > |w.builds| {
        forall i | 0 <= i < |w.builds| ensures e.done >= w.builds[i].at + ttl {
          assert w.store.refreshed >= w.builds[i].at;
        }
      }
      AnswerStep(w, r.builds, a, ttl);
    }
  }

  // --- What a build holds -----------------------------------------------------------------

  /** Every node a listing names is there, with the status of the last item that
      names it, and nothing else is. */
  ghost predicate Lists<T>(content: map<string, T>, items: seq<Item<T>>) {
    && (forall node :: node in content <==> node != "" && exists i :: 0 <= i < |items| && items[i].node == node)
    && (forall i :: 0 <= i < |items| && items[i].node != "" && (forall j :: i < j < |items| ==> items[j].node != items[i].node) ==>
          items[i].node in content && content[items[i].node] == items[i].status)
  }

  lemma {:induction false} MapLists<T>(items: seq<Item<T>>)
    ensures Lists(MapOf(items), items)
  {
    forall node ensures node in MapOf(items) <==> node != "" && exists i :: 0 <= i < |items| && items[i].node == node {
      MapHoldsLast(items, node);
    }
    forall i | 0 <= i < |items| && items[i].node != "" && (forall j :: i < j < |items| ==> items[j].node != items[i].node)
      ensures items[i].node in MapOf(items) && MapOf(items)[items[i].node] == items[i].status
    {
      MapHoldsLast(items, items[i].node);
    }
  }

  /** An event of the run is a listing that made this build. */
  ghost predicate MadeFrom<T>(b: Build<T>, events: seq<Event<T>>) {
    exists n :: 0 <= n < |events| && events[n].Locked? && events[n].done == b.at
      && events[n].listing.Some? && Lists(b.content, events[n].listing.value)
  }

  lemma {:induction false} MadeFromMore<T>(b: Build<T>, events: seq<Event<T>>, e: Event<T>)
    requires MadeFrom(b, events)
    ensures MadeFrom(b, events + [e])
  {
    hide Lists;
    var n :| 0 <= n < |events| && events[n].Locked? && events[n].done == b.at
      && events[n].listing.Some? && Lists(b.content, events[n].listing.value);
    assert (events + [e])[n] == events[n];
  }

  /** Every build of every run holds what a listing of the run says. */
  lemma {:induction false} BuildsAreListings<T>(events: seq<Event<T>>, ttl: int)
    ensures forall k :: 0 <= k < |Run(events, ttl).builds| ==> MadeFrom(Run(events, ttl).builds[k], events)
    decreases |events|
  {
    if events != [] {
      var n := |events| - 1;
      var w, e := Run(events[..n], ttl), events[n];
      BuildsAreListings(events[..n], ttl);
      assert events == events[..n] + [e];
      if e.Locked? && e.listing.Some? {
        MapLists(e.listing.value);
      }
      hide Lists, MapOf;
      forall k | 0 <= k < |Run(events, ttl).builds| ensures MadeFrom(Run(events, ttl).builds[k], events) {
        if k < |w.builds| {
          MadeFromMore(w.builds[k], events[..n], e);
        } else {
          assert events[n].Locked? && events[n].listing.Some?;
        }
      }
    }
  }

  // --- The cache as the scheduler keeps it ------------------------------------------------

  class Cache<T> {
    var entry: Option<map<string, T>>
    var refreshed: int
    const ttl: int
    /** Everything its callers have done and were told. */
    ghost var world: World<T>

    ghost predicate Valid()
      reads this
    {
      ttl >= 0 && world.store == Store(entry, refreshed) && Kept(world, ttl)
    }

    constructor (ttl: int)
      requires ttl >= 0
      ensures Valid() && this.ttl == ttl && world == Initial()
    {
      this.ttl, entry, refreshed, world := ttl, None, 0, Initial();
    }

    /** The section under the read lock: what it returns is the last build, made
        less than the TTL before; a caller it sends on waits for the write lock. */
    method Check(ghost caller: nat, now: int) returns (states: Option<map<string, T>>)
      requires Valid() && Enabled(world, Event.Check(caller, now))
      modifies this`world
      ensures Valid() && world == Next(old(world), Event.Check(caller, now), ttl)
      ensures states == Checked(old(world).store, now, ttl)
      ensures states.Some? ==>
        var last := world.builds[|world.builds| - 1];
        world.builds != [] && states.value == last.content && last.at <= now < last.at + ttl
      ensures states.None? ==> caller in world.waiting && world.answers == old(world).answers
    {
      KeptStep(world, Event.Check(caller, now), ttl);
      world := Next(world, Event.Check(caller, now), ttl);
      if now - refreshed < ttl && entry.Some? {
        return entry;
      }
      states := None;
    }

    /** The section under the write lock. */
    method Rebuild(ghost caller: nat, now: int, listing: Option<seq<Item<T>>>, done: int)
                   returns (states: map<string, T>)
      requires Valid() && Enabled(world, Event.Locked(caller, now, listing, done))
      modifies this
      ensures Valid() && world == Next(old(world), Event.Locked(caller, now, listing, done), ttl)
      ensures |world.answers| == |old(world).answers| + 1 && world.answers[|world.answers| - 1].states == states
    {
      KeptStep(world, Event.Locked(caller, now, listing, done), ttl);
      world := Next(world, Event.Locked(caller, now, listing, done), ttl);
      if now - refreshed < ttl && entry.Some? {
        return entry.value;
      }
      if listing.None? {
        return map[];
      }
      hide Kept, Next;
      states := map[];
      var items := listing.value;
      for i := 0 to |items|
        invariant states == MapOf(items[..i])
      {
        assert items[..i + 1][..i] == items[..i];
        if items[i].node != "" {
          states := states[items[i].node := items[i].status];
        }
      }
      assert items[..|items|] == items;
      entry, refreshed := Some(states), done;
    }
  }

  // --- Whole runs --------------------------------------------------------------------------

  function Run<T>(events: seq<Event<T>>, ttl: int): (w: World<T>)
    ensures w.store.entry.Some? ==> w.builds != []
  {
    if events == [] then Initial<T>() else Next(Run(events[..|events| - 1], ttl), events[|events| - 1], ttl)
  }

  /** Every event is enabled when it comes. */
  ghost predicate Possible<T>(events: seq<Event<T>>, ttl: int) {
    forall n :: 0 <= n < |events| ==> Enabled(Run(events[..n], ttl), events[n])
  }

  /** For any number of callers and any interleaving: rebuilds that succeed are at
      least the TTL apart, every answer is honest, and answers never go back to
      an older build. */
  lemma {:induction false} EveryInterleaving<T>(events: seq<Event<T>>, ttl: int)
    requires ttl >= 0 && Possible(events, ttl)
    ensures var w := Run(events, ttl);
      && BuildsSpaced(w.builds, ttl) && NeverBack(w.answers)
      && forall i :: 0 <= i < |w.answers| ==> Honest(w.answers[i], w.builds, ttl)
    ensures Kept(Run(events, ttl), ttl)
    decreases |events|
  {
    if events != [] {
      var n := |events| - 1;
      assert Possible(events[..n], ttl) by {
        forall m | 0 <= m < n ensures Enabled(Run(events[..n][..m], ttl), events[..n][m]) {
          assert events[..n][..m] == events[..m];
        }
      }
      EveryInterleaving(events[..n], ttl);
      KeptStep(Run(events[..n], ttl), events[n], ttl);
    }
  }
}
