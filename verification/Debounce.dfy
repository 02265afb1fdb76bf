/**
 The request front end: recent answers are repeated for a short while, and
 concurrent requests for a key wait for the one that leads it.  Leaders are
 numbered by generation, so that one that was given up cannot publish over
 its successor.
 */
module Debounce {
  import opened Prelude
  import opened CacheHints
  import opened TokenLaws

  /** What the front end looks at in a response. */
  datatype Answer<+T> = Answer(intermediate: bool, notModified: bool, cache: Option<string>, payload: T)

  /** "Not modified" is an answer only for a client that holds the same representation. */
  predicate Suits<T>(a: Answer<T>, client: Option<CacheHints>) {
    if !a.notModified then true
    else
      var stored := if a.cache.Some? then FromToken(a.cache.value) else None;
      && stored.Some? && client.Some?
      && stored.value.ToConditional() == client.value.ToConditional()
      && (stored.value.ToConditional().None? ==> stored.value.expiresAt == client.value.expiresAt)
  }

  type Generation = nat
  /** A one-shot channel, by number. */
  type Channel = nat

  datatype Slot = Slot(id: Generation, waiters: seq<Channel>)

  /** What a waiting request finds on its channel. */
  datatype Delivery<+T> = Pending | Received(answer: Answer<T>) | Closed

  datatype Lookup<+T> = Hit(answer: Answer<T>) | Leader(id: Generation) | Join(id: Generation, channel: Channel)

  type Inflight = map<string, Slot>

  datatype State<+T> = State(
    sticky: map<string, Answer<T>>, inflight: Inflight, channels: seq<Delivery<T>>, generations: nat)
  {
    predicate Holds(key: string, id: Generation) {
      key in inflight && inflight[key].id == id
    }
  }

  /** Put `d` on every pending channel of `waiters`. */
  function Deliver<T>(channels: seq<Delivery<T>>, waiters: seq<Channel>, d: Delivery<T>): (r: seq<Delivery<T>>)
    ensures |r| == |channels|
    ensures forall c :: 0 <= c < |channels| ==> r[c] == if c in waiters && channels[c].Pending? then d else channels[c]
  {
    seq(|channels|, c requires 0 <= c < |channels| =>
      if c in waiters && channels[c].Pending? then d else channels[c])
  }

  function Looked<T>(s: State<T>, key: string, client: Option<CacheHints>): (State<T>, Lookup<T>) {
    if key in s.sticky && Suits(s.sticky[key], client) then (s, Hit(s.sticky[key]))
    else if key in s.inflight then
      var slot := s.inflight[key];
      (s.(inflight := s.inflight[key := slot.(waiters := slot.waiters + [|s.channels|])],
          channels := s.channels + [Pending]),
       Join(slot.id, |s.channels|))
    else
      (s.(inflight := s.inflight[key := Slot(s.generations, [])], generations := s.generations + 1),
       Leader(s.generations))
  }

  function Completed<T>(s: State<T>, key: string, id: Generation, answer: Answer<T>): State<T> {
    if !s.Holds(key, id) then s
    else
      s.(sticky := s.sticky[key := answer], inflight := s.inflight - {key},
         channels := Deliver(s.channels, s.inflight[key].waiters, Received(answer)))
  }

  /** The slot goes, and with it the senders of everyone who waits. */
  function Cancelled<T>(s: State<T>, key: string, id: Generation): State<T> {
    if !s.Holds(key, id) then s
    else
      s.(inflight := s.inflight - {key}, channels := Deliver(s.channels, s.inflight[key].waiters, Closed))
  }

  class CacheFrontend<T> {
    var sticky: map<string, Answer<T>>
    var inflight: Inflight
    var channels: seq<Delivery<T>>
    var generations: nat

    function Contents(): State<T>
      reads this
    {
      State(sticky, inflight, channels, generations)
    }

    constructor ()
      ensures Contents() == State(map[], map[], [], 0)
    {
      sticky, inflight, channels, generations := map[], map[], [], 0;
    }

    method Lookup(key: string, client: Option<CacheHints>) returns (r: Lookup<T>)
      modifies this
      ensures (Contents(), r) == Looked(old(Contents()), key, client)
    {
      if key in sticky && Suits(sticky[key], client) {
        return Hit(sticky[key]);
      }
      if key in inflight {
        var slot, channel := inflight[key], |channels|;
        channels := channels + [Pending];
        inflight := inflight[key := slot.(waiters := slot.waiters + [channel])];
        return Join(slot.id, channel);
      }
      var id := generations;
      generations := generations + 1;
      inflight := inflight[key := Slot(id, [])];
      return Leader(id);
    }

    /** Resolve the channels of `waiters`, one after the other. */
    method Send(waiters: seq<Channel>, d: Delivery<T>)
      requires !d.Pending?
      modifies this`channels
      ensures channels == Deliver(old(channels), waiters, d)
    {
      for i := 0 to |waiters|
        invariant channels == Deliver(old(channels), waiters[..i], d)
      {
        var w := waiters[i];
        assert waiters[..i + 1] == waiters[..i] + [w];
        if w < |channels| && channels[w].Pending? {
          channels := channels[w := d];
        }
      }
      assert waiters[..|waiters|] == waiters;
    }

    method Complete(key: string, id: Generation, answer: Answer<T>)
      modifies this
      ensures Contents() == Completed(old(Contents()), key, id, answer)
    {
      if key !in inflight || inflight[key].id != id {
        return;
      }
      sticky := sticky[key := answer];
      var slot := inflight[key];
      inflight := inflight - {key};
      Send(slot.waiters, Received(answer));
    }

    method Cancel(key: string, id: Generation)
      modifies this
      ensures Contents() == Cancelled(old(Contents()), key, id)
    {
      if key in inflight && inflight[key].id == id {
        var slot := inflight[key];
        inflight := inflight - {key};
        Send(slot.waiters, Closed);
      }
    }

    /** A recent answer lapses. */
    method Forget(key: string)
      modifies this`sticky
      ensures Contents() == old(Contents()).(sticky := old(sticky) - {key})
    {
      sticky := sticky - {key};
    }

    /** A leader's guard goes out of scope, with a response or without one. */
    method DropLeader(key: string, id: Generation, response: Option<Answer<T>>)
      modifies this
      ensures Contents() == Ended(old(Contents()), key, id, response)
    {
      if response.Some? && !response.value.intermediate {
        Complete(key, id, response.value);
      }
      Cancel(key, id);
    }
  }

  function Ended<T>(s: State<T>, key: string, id: Generation, response: Option<Answer<T>>): State<T> {
    Cancelled(if response.Some? && !response.value.intermediate then Completed(s, key, id, response.value) else s, key, id)
  }

  //  The protocol: requests, in any interleaving

  datatype Seat = Seat(key: string, id: Generation)

  /**
   `issued`: the key of each generation.  `guards`: leaders still running.
   `joined`: what each channel waits for.  `published`: what each generation
   made known; `newest`: the last generation that did so for a key.
   */
  datatype World<+T> = World(
    state: State<T>, issued: seq<string>, guards: set<Generation>, joined: seq<Seat>,
    published: map<Generation, Answer<T>>, newest: map<string, Generation>)

  datatype Step<+T> =
    | Ask(key: string, client: Option<CacheHints>)
    | End(id: Generation, response: Option<Answer<T>>)
    | TimeOut(channel: Channel)
    | Expire(key: string)

  /** Only a running leader ends, and only a request that joined times out. */
  predicate Enabled<T>(w: World<T>, step: Step<T>) {
    match step
    case Ask(_, _) => true
    case End(id, _) => id in w.guards && id < |w.issued|
    case TimeOut(channel) => channel < |w.joined|
    case Expire(_) => true
  }

  function Next<T>(w: World<T>, step: Step<T>): World<T>
    requires Enabled(w, step)
  {
    match step
    case Ask(key, client) => Asked(w, key, client)
    case End(id, response) => EndedBy(w, id, w.issued[id], response)
    case TimeOut(channel) =>
      w.(state := Cancelled(w.state, w.joined[channel].key, w.joined[channel].id))
    case Expire(key) => w.(state := w.state.(sticky := w.state.sticky - {key}))
  }

  function Asked<T>(w: World<T>, key: string, client: Option<CacheHints>): World<T> {
    var (s, r) := Looked(w.state, key, client);
    match r
    case Hit(_) => w
    case Leader(id) => w.(state := s, issued := w.issued + [key], guards := w.guards + {id})
    case Join(id, _) => w.(state := s, joined := w.joined + [Seat(key, id)])
  }

  function EndedBy<T>(w: World<T>, id: Generation, key: string, response: Option<Answer<T>>): World<T> {
    var publishes := w.state.Holds(key, id) && response.Some? && !response.value.intermediate;
    var w' := w.(state := Ended(w.state, key, id, response), guards := w.guards - {id});
    if publishes then
      w'.(published := w.published[id := response.value], newest := w.newest[key := id])
    else w'
  }

  /** A slot belongs to the newest generation of its key, whose leader still runs and has published nothing. */
  ghost predicate Leading<T>(w: World<T>) {
    && w.state.generations == |w.issued|
    && (forall g :: g in w.guards ==> g < |w.issued| && g !in w.published)
    && (forall k :: k in w.state.inflight ==>
          w.state.inflight[k].id in w.guards && w.issued[w.state.inflight[k].id] == k)
    && (forall k, g :: k in w.state.inflight && 0 <= g < |w.issued| && w.issued[g] == k ==> g <= w.state.inflight[k].id)
  }

  /** A channel is in one slot at most, and that is the slot it joined. */
  ghost predicate Seated<T>(w: World<T>) {
    && |w.joined| == |w.state.channels|
    && (forall k :: k in w.state.inflight ==> SeatedAt(w.joined, k, w.state.inflight[k]))
  }

  ghost predicate SeatedAt(joined: seq<Seat>, key: string, slot: Slot) {
    forall c :: c in slot.waiters ==> c < |joined| && joined[c] == Seat(key, slot.id)
  }

  /** What those who joined a generation find on their channels. */
  function Fate<T>(w: World<T>, key: string, id: Generation): Delivery<T> {
    if id in w.published then Received(w.published[id])
    else if w.state.Holds(key, id) then Pending
    else Closed
  }

  /** A channel is pending while its slot stands, and afterwards holds what its leader published, if it did. */
  ghost predicate Settled<T>(w: World<T>, c: Channel)
    requires c < |w.joined| && c < |w.state.channels|
  {
    var Seat(key, id) := w.joined[c];
    && id < |w.issued| && w.issued[id] == key
    && w.state.channels[c] == Fate(w, key, id)
    && (w.state.Holds(key, id) ==> c in w.state.inflight[key].waiters)
  }

  ghost predicate AllSettled<T>(w: World<T>)
    requires |w.joined| == |w.state.channels|
  {
    forall c :: 0 <= c < |w.joined| ==> Settled(w, c)
  }

  /** What is repeated is what the newest publishing generation of the key published. */
  ghost predicate Current<T>(w: World<T>) {
    && (forall g :: g in w.published ==> g < |w.issued| && w.issued[g] in w.newest && g <= w.newest[w.issued[g]])
    && (forall k :: k in w.newest ==> w.newest[k] in w.published)
    && (forall k :: k in w.newest ==> w.newest[k] < |w.issued| && w.issued[w.newest[k]] == k)
    && (forall k :: k in w.state.sticky ==> k in w.newest && w.state.sticky[k] == w.published[w.newest[k]])
  }

  ghost predicate Invariant<T>(w: World<T>) {
    Leading(w) && Seated(w) && AllSettled(w) && Current(w)
  }

  //  Steps

  lemma AskKeeps<T>(w: World<T>, key: string, client: Option<CacheHints>)
    requires Invariant(w)
    ensures Invariant(Asked(w, key, client))
  {
    var next := Asked(w, key, client);
    var r := Looked(w.state, key, client).1;
    match r
    case Hit(_) =>
    case Leader(id) => LeadKeeps(w, key, client);
    case Join(id, channel) => JoinKeeps(w, key, client);
  }

  lemma LeadKeeps<T>(w: World<T>, key: string, client: Option<CacheHints>)
    requires Invariant(w) && Looked(w.state, key, client).1.Leader?
    ensures Invariant(Asked(w, key, client))
  {
    hide Settled;
    var next := Asked(w, key, client);
    LeadLeading(w, key, client);
    forall c | 0 <= c < |next.joined| ensures Settled(next, c) {
      LeadSettled(w, key, client, c);
    }
    hide Leading;
    assert forall g :: 0 <= g < |w.issued| ==> next.issued[g] == w.issued[g];
  }

  lemma LeadLeading<T>(w: World<T>, key: string, client: Option<CacheHints>)
    requires Leading(w) && Current(w) && Looked(w.state, key, client).1.Leader?
    ensures Leading(Asked(w, key, client))
  {
    hide Suits;
  }

  lemma LeadSettled<T>(w: World<T>, key: string, client: Option<CacheHints>, c: Channel)
    requires Leading(w) && Looked(w.state, key, client).1.Leader?
    requires c < |w.joined| == |w.state.channels| && Settled(w, c)
    ensures Settled(Asked(w, key, client), c)
  {
    hide Suits;
  }

  lemma JoinKeeps<T>(w: World<T>, key: string, client: Option<CacheHints>)
    requires Invariant(w) && Looked(w.state, key, client).1.Join?
    ensures Invariant(Asked(w, key, client))
  {
    hide Settled, Suits;
    var next := Asked(w, key, client);
    JoinLeading(w, key, client);
    JoinSeated(w, key, client);
    forall c | 0 <= c < |next.joined| ensures Settled(next, c) {
      JoinSettled(w, key, client, c);
    }
    hide Leading, Seated;
  }

  lemma JoinLeading<T>(w: World<T>, key: string, client: Option<CacheHints>)
    requires Leading(w) && Looked(w.state, key, client).1.Join?
    ensures Leading(Asked(w, key, client))
  {
    hide Suits;
  }

  lemma JoinSeated<T>(w: World<T>, key: string, client: Option<CacheHints>)
    requires Seated(w) && Looked(w.state, key, client).1.Join?
    ensures Seated(Asked(w, key, client))
  {
    hide Suits;
  }

  lemma JoinSettled<T>(w: World<T>, key: string, client: Option<CacheHints>, c: Channel)
    requires Leading(w) && Looked(w.state, key, client).1.Join?
    requires c <= |w.joined| == |w.state.channels| && (c < |w.joined| ==> Settled(w, c))
    ensures Settled(Asked(w, key, client), c)
  {
    hide Suits;
  }

  lemma CancelKeeps<T>(w: World<T>, key: string, id: Generation)
    requires Invariant(w)
    ensures Invariant(w.(state := Cancelled(w.state, key, id)))
  {
    var next := w.(state := Cancelled(w.state, key, id));
    forall c | 0 <= c < |next.joined| ensures Settled(next, c) {
      assert Settled(w, c);
    }
  }

  /** A running leader publishes, and is gone. */
  function PublishedBy<T>(w: World<T>, id: Generation, key: string, answer: Answer<T>): World<T> {
    w.(state := Completed(w.state, key, id, answer), guards := w.guards - {id},
       published := w.published[id := answer], newest := w.newest[key := id])
  }

  lemma PublishKeeps<T>(w: World<T>, id: Generation, key: string, answer: Answer<T>)
    requires Invariant(w) && w.state.Holds(key, id)
    ensures Invariant(PublishedBy(w, id, key, answer))
  {
    hide Settled;
    var next := PublishedBy(w, id, key, answer);
    PublishLeading(w, id, key, answer);
    PublishCurrent(w, id, key, answer);
    forall c | 0 <= c < |next.joined| ensures Settled(next, c) {
      PublishSettled(w, id, key, answer, c);
    }
    hide Leading, Current;
  }

  lemma PublishLeading<T>(w: World<T>, id: Generation, key: string, answer: Answer<T>)
    requires Leading(w) && w.state.Holds(key, id)
    ensures Leading(PublishedBy(w, id, key, answer))
  {
  }

  lemma PublishCurrent<T>(w: World<T>, id: Generation, key: string, answer: Answer<T>)
    requires Leading(w) && Current(w) && w.state.Holds(key, id)
    ensures Current(PublishedBy(w, id, key, answer))
  {
    hide Deliver;
    var next := PublishedBy(w, id, key, answer);
    assert next.state.sticky == w.state.sticky[key := answer];
    assert id < |w.issued| && w.issued[id] == key;
    forall k | k in next.newest
      ensures next.newest[k] in next.published && next.newest[k] < |w.issued| && w.issued[next.newest[k]] == k
      ensures k in next.state.sticky ==> next.state.sticky[k] == next.published[next.newest[k]]
    {
      assert k != key ==> k in w.newest && w.newest[k] != id;
    }
    forall g | g in next.published
      ensures g < |w.issued| && w.issued[g] in next.newest && g <= next.newest[w.issued[g]]
    {
      assert g < |w.issued| && (w.issued[g] == key ==> g <= id);
    }
  }

  lemma PublishSettled<T>(w: World<T>, id: Generation, key: string, answer: Answer<T>, c: Channel)
    requires Leading(w) && Seated(w) && w.state.Holds(key, id)
    requires c < |w.joined| && Settled(w, c)
    ensures Settled(PublishedBy(w, id, key, answer), c)
  {
  }

  /** A leader without a slot may go. */
  lemma GuardGone<T>(w: World<T>, id: Generation)
    requires Invariant(w) && forall k :: k in w.state.inflight ==> w.state.inflight[k].id != id
    ensures Invariant(w.(guards := w.guards - {id}))
  {
    var next := w.(guards := w.guards - {id});
    forall c | 0 <= c < |next.joined| ensures Settled(next, c) {
      assert Settled(w, c);
    }
  }

  lemma EndKeeps<T>(w: World<T>, id: Generation, response: Option<Answer<T>>)
    requires Invariant(w) && Enabled(w, End(id, response))
    ensures Invariant(EndedBy(w, id, w.issued[id], response))
  {
    var key := w.issued[id];
    if w.state.Holds(key, id) && response.Some? && !response.value.intermediate {
      PublishKeeps(w, id, key, response.value);
      assert EndedBy(w, id, key, response) == PublishedBy(w, id, key, response.value);
    } else {
      CancelKeeps(w, key, id);
      var cancelled := w.(state := Cancelled(w.state, key, id));
      GuardGone(cancelled, id);
      assert EndedBy(w, id, key, response) == cancelled.(guards := w.guards - {id});
    }
  }

  lemma StepKeeps<T>(w: World<T>, step: Step<T>)
    requires Invariant(w) && Enabled(w, step)
    ensures Invariant(Next(w, step))
  {
    match step
    case Ask(key, client) => AskKeeps(w, key, client);
    case End(id, response) => EndKeeps(w, id, response);
    case TimeOut(channel) => CancelKeeps(w, w.joined[channel].key, w.joined[channel].id);
    case Expire(key) =>
      forall c | 0 <= c < |w.joined| ensures Settled(Next(w, step), c) {
        assert Settled(w, c);
      }
  }

  //  Runs

  function Start<T>(): World<T> {
    World(State(map[], map[], [], 0), [], {}, [], map[], map[])
  }

  ghost predicate IsRun<T>(worlds: seq<World<T>>, steps: seq<Step<T>>) {
    && |worlds| == |steps| + 1 && worlds[0] == Start()
    && forall i :: 0 <= i < |steps| ==> Enabled(worlds[i], steps[i]) && worlds[i + 1] == Next(worlds[i], steps[i])
  }

  lemma {:induction false} RunKeeps<T>(worlds: seq<World<T>>, steps: seq<Step<T>>, i: nat)
    requires IsRun(worlds, steps) && i <= |steps|
    ensures Invariant(worlds[i])
  {
    if i > 0 {
      hide Invariant, Enabled, Next;
      RunKeeps(worlds, steps, i - 1);
      StepKeeps(worlds[i - 1], steps[i - 1]);
    }
  }

  /** In every run, a key that is being led is led by a running request, the last one that was made its leader. */
  lemma SlotHasRunningLeader<T>(worlds: seq<World<T>>, steps: seq<Step<T>>, i: nat, key: string, g: Generation)
    requires IsRun(worlds, steps) && i <= |steps| && key in worlds[i].state.inflight
    ensures var w := worlds[i];
      var id := w.state.inflight[key].id;
      id in w.guards && id < |w.issued| && w.issued[id] == key && (g < |w.issued| && w.issued[g] == key ==> g <= id)
  {
    RunKeeps(worlds, steps, i);
  }

  /**
   In every run, what a joiner finds is settled by the leader it joined:
   nothing yet while that leader holds the key, its answer if it published,
   and a closed channel if it went away or was given up without publishing.
   */
  lemma JoinerFate<T>(worlds: seq<World<T>>, steps: seq<Step<T>>, i: nat, c: Channel)
    requires IsRun(worlds, steps) && i <= |steps| && c < |worlds[i].joined|
    ensures var w := worlds[i];
      var Seat(key, id) := w.joined[c];
      && c < |w.state.channels|
      && match w.state.channels[c]
         case Pending => w.state.Holds(key, id) && id in w.guards && id !in w.published
         case Received(answer) => id in w.published && w.published[id] == answer && !w.state.Holds(key, id)
         case Closed => id !in w.published && !w.state.Holds(key, id)
  {
    RunKeeps(worlds, steps, i);
    assert Settled(worlds[i], c);
  }

  /** In every run, a recent answer that is repeated is the one of the newest generation that published for the key. */
  lemma StickyIsNewest<T>(worlds: seq<World<T>>, steps: seq<Step<T>>, i: nat, key: string, g: Generation)
    requires IsRun(worlds, steps) && i <= |steps| && key in worlds[i].state.sticky
    ensures var w := worlds[i];
      && key in w.newest && w.newest[key] in w.published
      && w.state.sticky[key] == w.published[w.newest[key]]
      && (g in w.published && g < |w.issued| && w.issued[g] == key ==> g <= w.newest[key])
  {
    RunKeeps(worlds, steps, i);
  }

  /** One step on, a leader that was replaced has still published nothing new. */
  lemma SupersededStep<T>(w: World<T>, step: Step<T>, earlier: Generation, later: Generation)
    requires Invariant(w) && Enabled(w, step)
    requires earlier < later < |w.issued| && w.issued[earlier] == w.issued[later]
    ensures var next := Next(w, step);
      && |w.issued| <= |next.issued| && next.issued[earlier] == w.issued[earlier] && next.issued[later] == w.issued[later]
      && (earlier in next.published <==> earlier in w.published)
  {
  }

  /** Once a key has a newer leader, an older one of the same key never publishes any more. */
  lemma {:induction false} SupersededNeverPublishes<T>(worlds: seq<World<T>>, steps: seq<Step<T>>, i: nat, j: nat,
                                                       earlier: Generation, later: Generation)
    requires IsRun(worlds, steps) && i <= j <= |steps|
    requires earlier < later < |worlds[i].issued| && worlds[i].issued[earlier] == worlds[i].issued[later]
    ensures later < |worlds[j].issued| && worlds[j].issued[earlier] == worlds[j].issued[later] == worlds[i].issued[earlier]
    ensures earlier in worlds[j].published <==> earlier in worlds[i].published
    decreases j
  {
    hide Invariant, Enabled, Next;
    if i < j {
      SupersededNeverPublishes(worlds, steps, i, j - 1, earlier, later);
      RunKeeps(worlds, steps, j - 1);
      SupersededStep(worlds[j - 1], steps[j - 1], earlier, later);
    }
  }

  /** A leader that ends, however it ends, leaves its key free or to its successor. */
  lemma EndReleases<T>(w: World<T>, id: Generation, response: Option<Answer<T>>, key: string)
    requires Invariant(w) && Enabled(w, End(id, response))
    ensures !Next(w, End(id, response)).state.Holds(key, id)
  {
  }

  //  The class is the protocol

  /** Each step of the protocol is one call on the class; `seat` is the key and generation it is about. */
  method Perform<T>(f: CacheFrontend<T>, ghost w: World<T>, step: Step<T>, seat: Seat)
    requires f.Contents() == w.state && Enabled(w, step)
    requires step.End? ==> seat == Seat(w.issued[step.id], step.id)
    requires step.TimeOut? ==> seat == w.joined[step.channel]
    modifies f
    ensures f.Contents() == Next(w, step).state
  {
    match step
    case Ask(key, client) =>
      var r := f.Lookup(key, client);
    case End(id, response) => f.DropLeader(seat.key, id, response);
    case TimeOut(_) => f.Cancel(seat.key, seat.id);
    case Expire(key) => f.Forget(key);
  }

  //  Who an answer is for

  /**
   A "not modified" that was published for a client with hints `h` is given
   again to that client exactly when its token still says what `h` said: no
   phantom window, and without a validator the very same expiry.
   */
  lemma SameClientRecognised<T>(h: CacheHints, ttl: nat, now: nat, payload: T)
    requires h.InRange() && !h.DisallowCaching() && 0 < Epoch(h, ttl, now) <= U64_MAX
    requires NoTrailingNul(h.etag) && NoTrailingNul(h.lastModified) && Whole(h.etag) && Whole(h.lastModified)
    ensures Suits(Answer(false, true, Some(Token(h, ttl, now)), payload), Some(h))
       <==> !PhantomWindow(h) && (h.ToConditional().Some? || h.expiresAt == Some(Epoch(h, ttl, now)))
  {
    hide Token, PhantomWindow, NoTrailingNul, Whole;
    ConditionalSurvivesIff(h, ttl, now);
    TokenOpens(h, ttl, now);
    hide FromToken, Epoch;
  }

  /** It is given to no client whose validator is another. */
  lemma NotModifiedStaysWithHolders<T>(h: CacheHints, other: Option<CacheHints>, ttl: nat, now: nat, payload: T)
    requires h.InRange() && !h.DisallowCaching() && 0 < Epoch(h, ttl, now) <= U64_MAX
    requires ValidatorsSafe(h)
    requires Suits(Answer(false, true, Some(Token(h, ttl, now)), payload), other)
    ensures other.Some? && other.value.ToConditional() == h.ToConditional()
  {
    hide FromToken, Token, Epoch;
    ConditionalSurvivesIff(h, ttl, now);
  }

  /** Who is answered at once: anyone by an ordinary recent answer, and by "not modified" only who holds the same. */
  lemma HitIff<T>(s: State<T>, key: string, client: Option<CacheHints>)
    ensures Looked(s, key, client).1.Hit? <==>
              && key in s.sticky
              && var a := s.sticky[key];
                 a.notModified ==>
                   && a.cache.Some? && client.Some? && FromToken(a.cache.value).Some?
                   && var held := FromToken(a.cache.value).value;
                      && held.ToConditional() == client.value.ToConditional()
                      && (held.ToConditional().None? ==> held.expiresAt == client.value.expiresAt)
    ensures Looked(s, key, client).1.Hit? ==> Looked(s, key, client) == (s, Hit(s.sticky[key]))
  {
  }

  /** Who asks next for a key that has just got a leader joins that leader, on a channel that is still to be resolved. */
  lemma NextAskerJoins<T>(s: State<T>, key: string, client: Option<CacheHints>, other: Option<CacheHints>)
    requires Looked(s, key, client).1.Leader?
    requires key in s.sticky ==> !Suits(s.sticky[key], other)
    ensures var led, id := Looked(s, key, client).0, Looked(s, key, client).1.id;
      var (joined, r) := Looked(led, key, other);
      && led.Holds(key, id) && r == Join(id, |led.channels|)
      && joined.Holds(key, id) && |led.channels| in joined.inflight[key].waiters
      && joined.channels == led.channels + [Pending]
  {
    hide Suits;
  }

  /** Asking for one key does nothing to another. */
  lemma OtherKeysKept<T>(s: State<T>, key: string, client: Option<CacheHints>, other: string)
    requires other != key
    ensures var next := Looked(s, key, client).0;
      && (other in next.inflight <==> other in s.inflight)
      && (other in s.inflight ==> next.inflight[other] == s.inflight[other])
      && next.sticky == s.sticky
  {
  }
}
