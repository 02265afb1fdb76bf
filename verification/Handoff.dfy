/**
 Deduplication of concurrent handoffs: the first request for a key leads,
 later ones join and wait on a one-shot channel for the leader's result.
 */
module Handoff {
  import opened Prelude

  /** A one-shot channel, by number. */
  type Channel = nat

  type Slots = map<string, seq<Channel>>

  /** What has been sent on each open channel. */
  type Mail<R> = map<Channel, seq<R>>

  /** Send on each channel in turn; a channel whose receiver is gone is skipped. */
  function SendAll<R>(mail: Mail<R>, gone: set<Channel>, waiters: seq<Channel>, result: R): (m: Mail<R>)
    ensures m.Keys == mail.Keys
  {
    if waiters == [] then mail
    else
      var w := waiters[|waiters| - 1];
      var m := SendAll(mail, gone, waiters[..|waiters| - 1], result);
      if w in m && w !in gone then m[w := m[w] + [result]] else m
  }

  class HandoffInflight<R> {
    var slots: Slots
    var mail: Mail<R>
    /** Channels whose receiver was dropped. */
    var gone: set<Channel>
    var channels: nat

    constructor ()
      ensures slots == map[] && mail == map[] && gone == {} && channels == 0
    {
      slots, mail, gone, channels := map[], map[], {}, 0;
    }

    /** `None` makes the caller the leader; otherwise it waits on the channel. */
    method TryLead(key: string) returns (r: Option<Channel>)
      modifies this`slots, this`mail, this`channels
      ensures key !in old(slots) ==>
                r == None && slots == old(slots)[key := []] && mail == old(mail) && channels == old(channels)
      ensures key in old(slots) ==>
                && r == Some(old(channels)) && channels == old(channels) + 1
                && slots == old(slots)[key := old(slots)[key] + [old(channels)]]
                && mail == old(mail)[old(channels) := []]
    {
      if key in slots {
        var channel := channels;
        channels := channels + 1;
        mail := mail[channel := []];
        slots := slots[key := slots[key] + [channel]];
        return Some(channel);
      }
      slots := slots[key := []];
      return None;
    }

    /** Take the slot away and send the result to everyone who joined it. */
    method Complete(key: string, result: R)
      modifies this`slots, this`mail
      ensures slots == old(slots) - {key}
      ensures mail == if key in old(slots) then SendAll(old(mail), gone, old(slots)[key], result) else old(mail)
    {
      if key !in slots {
        assert slots - {key} == slots;
        return;
      }
      var waiters := slots[key];
      slots := slots - {key};
      for i := 0 to |waiters|
        invariant slots == old(slots) - {key}
        invariant mail == SendAll(old(mail), gone, waiters[..i], result)
      {
        assert waiters[..i + 1][..i] == waiters[..i];
        var w := waiters[i];
        if w in mail && w !in gone {
          mail := mail[w := mail[w] + [result]];
        }
      }
      assert waiters[..|waiters|] == waiters;
    }

    /** A joiner stops waiting. */
    method DropReceiver(channel: Channel)
      modifies this`gone
      ensures gone == old(gone) + {channel}
    {
      gone := gone + {channel};
    }
  }

  //  The protocol: requests, in any interleaving

  /**
   `leaders`: requests running the handoff for a key.  `lost`: leaders that
   went away without completing.  `results`: what each finished leader
   published.  `joined`: the key
   and the leader each channel waits for.
   */
  datatype World<R> = World(
    slots: Slots, mail: Mail<R>, gone: set<Channel>, channels: nat,
    leaders: map<nat, string>, lost: map<nat, string>, results: map<nat, R>,
    current: map<string, nat>, joined: map<Channel, Seat>)

  datatype Seat = Seat(key: string, leader: nat)

  datatype Step<R> =
    | Arrive(request: nat, key: string)
    | Publish(request: nat, result: R)
    | Abandon(channel: Channel)
    | Crash(request: nat)

  predicate Fresh<R>(w: World<R>, request: nat) {
    request !in w.leaders && request !in w.lost && request !in w.results
  }

  /** Only a running leader completes. */
  predicate Enabled<R>(w: World<R>, step: Step<R>) {
    match step
    case Arrive(request, _) => Fresh(w, request)
    case Publish(request, _) => request in w.leaders
    case Abandon(channel) => channel in w.joined
    case Crash(request) => request in w.leaders
  }

  function Next<R>(w: World<R>, step: Step<R>): World<R>
    requires Enabled(w, step)
  {
    match step
    case Arrive(request, key) =>
      if key in w.slots && key in w.current then
        w.(slots := w.slots[key := w.slots[key] + [w.channels]], mail := w.mail[w.channels := []],
           channels := w.channels + 1, joined := w.joined[w.channels := Seat(key, w.current[key])])
      else
        w.(slots := w.slots[key := []], leaders := w.leaders[request := key], current := w.current[key := request])
    case Publish(request, result) =>
      var key := w.leaders[request];
      w.(slots := w.slots - {key}, current := w.current - {key},
         mail := if key in w.slots then SendAll(w.mail, w.gone, w.slots[key], result) else w.mail,
         leaders := w.leaders - {request}, results := w.results[request := result])
    case Abandon(channel) => w.(gone := w.gone + {channel})
    case Crash(request) => w.(leaders := w.leaders - {request}, lost := w.lost[request := w.leaders[request]])
  }

  /** Someone leads `key`, or led it and went away. */
  predicate Leads<R>(w: World<R>, request: nat, key: string) {
    (request in w.leaders && w.leaders[request] == key) || (request in w.lost && w.lost[request] == key)
  }

  /** A slot stands exactly as long as its leader has not completed, and has one leader. */
  ghost predicate Leadership<R>(w: World<R>) {
    && (forall k :: k in w.slots <==> k in w.current)
    && (forall l :: l in w.leaders ==> l !in w.lost && l !in w.results)
    && (forall l :: l in w.lost ==> l !in w.results)
    && (forall k :: k in w.current ==> Leads(w, w.current[k], k))
    && (forall l :: l in w.leaders ==> w.leaders[l] in w.current && w.current[w.leaders[l]] == l)
    && (forall l :: l in w.lost ==> w.lost[l] in w.current && w.current[w.lost[l]] == l)
  }

  /** A channel is in one slot at most, once, and that is the slot it joined. */
  ghost predicate Seating<R>(w: World<R>) {
    && (forall k :: k in w.slots <==> k in w.current)
    && (forall c :: c in w.mail <==> c in w.joined)
    && (forall c :: c in w.joined ==> c < w.channels)
    && (forall k, i :: k in w.slots && 0 <= i < |w.slots[k]| ==>
          w.slots[k][i] in w.joined && w.joined[w.slots[k][i]] == Seat(k, w.current[k]))
    && (forall k, i, j :: k in w.slots && 0 <= i < j < |w.slots[k]| ==> w.slots[k][i] != w.slots[k][j])
  }

  /** Every channel is either waiting in its leader's slot or was served by it. */
  ghost predicate Fates<R>(w: World<R>) {
    forall c :: c in w.joined ==> Waiting(w, c) || Served(w, c)
  }

  ghost predicate Invariant<R>(w: World<R>) {
    Leadership(w) && Seating(w) && Fates(w)
  }

  /** Still in the slot of its leader, with nothing received. */
  ghost predicate Waiting<R>(w: World<R>, c: Channel)
    requires c in w.joined
  {
    var key := w.joined[c].key;
    && c in w.mail && w.mail[c] == []
    && key in w.slots && key in w.current && w.current[key] == w.joined[c].leader && c in w.slots[key]
  }

  /** Its leader has finished, and it received that result once unless its receiver was gone. */
  ghost predicate Served<R>(w: World<R>, c: Channel)
    requires c in w.joined
  {
    var leader := w.joined[c].leader;
    && c in w.mail && leader in w.results
    && (w.mail[c] == [w.results[leader]] || (w.mail[c] == [] && c in w.gone))
  }

  //  Sending

  lemma {:induction false} SendAllReaches<R>(mail: Mail<R>, gone: set<Channel>, waiters: seq<Channel>, result: R, c: Channel)
    requires forall i, j :: 0 <= i < j < |waiters| ==> waiters[i] != waiters[j]
    requires c in mail
    ensures SendAll(mail, gone, waiters, result)[c]
         == if c in waiters && c !in gone then mail[c] + [result] else mail[c]
  {
    if waiters != [] {
      var front := waiters[..|waiters| - 1];
      SendAllReaches(mail, gone, front, result, c);
      assert waiters == front + [waiters[|waiters| - 1]];
      if c == waiters[|waiters| - 1] {
        assert c !in front;
      }
    }
  }

  //  Steps

  lemma JoinLeadership<R>(w: World<R>, request: nat, key: string)
    requires Leadership(w) && Enabled(w, Arrive(request, key)) && key in w.slots
    ensures Leadership(Next(w, Arrive(request, key)))
  {
    var next := Next(w, Arrive(request, key));
    assert forall k :: k in w.current ==> (Leads(next, w.current[k], k) <==> Leads(w, w.current[k], k));
  }

  lemma LeadLeadership<R>(w: World<R>, request: nat, key: string)
    requires Leadership(w) && Enabled(w, Arrive(request, key)) && key !in w.slots
    ensures Leadership(Next(w, Arrive(request, key)))
  {
    var next := Next(w, Arrive(request, key));
    forall k | k in next.current ensures Leads(next, next.current[k], k) {
      assert k != key ==> Leads(w, w.current[k], k);
    }
  }

  lemma PublishLeadership<R>(w: World<R>, request: nat, result: R)
    requires Leadership(w) && Enabled(w, Publish(request, result))
    ensures Leadership(Next(w, Publish(request, result)))
  {
  }

  lemma CrashLeadership<R>(w: World<R>, request: nat)
    requires Leadership(w) && Enabled(w, Crash(request))
    ensures Leadership(Next(w, Crash(request)))
  {
  }

  lemma LeadershipKept<R>(w: World<R>, step: Step<R>)
    requires Leadership(w) && Enabled(w, step)
    ensures Leadership(Next(w, step))
  {
    match step
    case Arrive(request, key) =>
      if key in w.slots {
        JoinLeadership(w, request, key);
      } else {
        LeadLeadership(w, request, key);
      }
    case Publish(request, result) => PublishLeadership(w, request, result);
    case Crash(request) => CrashLeadership(w, request);
    case Abandon(_) =>
  }

  lemma ArriveSeating<R>(w: World<R>, request: nat, key: string)
    requires Seating(w) && Enabled(w, Arrive(request, key))
    ensures Seating(Next(w, Arrive(request, key)))
  {
    if key in w.slots {
      assert w.channels !in w.joined;
    }
  }

  lemma SeatingKept<R>(w: World<R>, step: Step<R>)
    requires Seating(w) && Enabled(w, step)
    ensures Seating(Next(w, step))
  {
    match step
    case Arrive(request, key) => ArriveSeating(w, request, key);
    case _ =>
  }

  lemma ArriveFates<R>(w: World<R>, request: nat, key: string)
    requires Leadership(w) && Seating(w) && Fates(w) && Enabled(w, Arrive(request, key))
    ensures Fates(Next(w, Arrive(request, key)))
  {
    var next := Next(w, Arrive(request, key));
    forall c | c in next.joined
      ensures Waiting(next, c) || Served(next, c)
    {
      if c in w.joined {
        ArriveFate(w, request, key, c);
      } else {
        assert next.slots[key][|w.slots[key]|] == c;
      }
    }
  }

  /** An arrival changes nothing for a channel that was already there. */
  lemma ArriveFate<R>(w: World<R>, request: nat, key: string, c: Channel)
    requires Leadership(w) && Seating(w) && Enabled(w, Arrive(request, key))
    requires c in w.joined && (Waiting(w, c) || Served(w, c))
    ensures var next := Next(w, Arrive(request, key));
      c in next.joined && (Waiting(next, c) || Served(next, c))
  {
    hide Leadership, SendAll;
    if key in w.slots {
      assert c != w.channels;
    }
  }

  lemma PublishFates<R>(w: World<R>, request: nat, result: R)
    requires Leadership(w) && Seating(w) && Fates(w) && Enabled(w, Publish(request, result))
    ensures Fates(Next(w, Publish(request, result)))
  {
    var next := Next(w, Publish(request, result));
    forall c | c in next.joined
      ensures Waiting(next, c) || Served(next, c)
    {
      PublishFate(w, request, result, c);
    }
  }

  /** One channel, when a leader publishes: its own joiners are served, the others notice nothing. */
  lemma PublishFate<R>(w: World<R>, request: nat, result: R, c: Channel)
    requires Leadership(w) && Seating(w) && Enabled(w, Publish(request, result))
    requires c in w.joined && (Waiting(w, c) || Served(w, c))
    ensures var next := Next(w, Publish(request, result));
      c in next.joined && (Waiting(next, c) || Served(next, c))
  {
    assert w.current[w.leaders[request]] == request;
    SendAllReaches(w.mail, w.gone, w.slots[w.leaders[request]], result, c);
  }

  lemma FatesKept<R>(w: World<R>, step: Step<R>)
    requires Leadership(w) && Seating(w) && Fates(w) && Enabled(w, step)
    ensures Fates(Next(w, step))
  {
    match step
    case Arrive(request, key) => ArriveFates(w, request, key);
    case Publish(request, result) => PublishFates(w, request, result);
    case _ =>
      forall c | c in w.joined
        ensures Waiting(Next(w, step), c) || Served(Next(w, step), c)
      {
        assert Waiting(w, c) || Served(w, c);
      }
  }

  lemma StepKeeps<R>(w: World<R>, step: Step<R>)
    requires Invariant(w) && Enabled(w, step)
    ensures Invariant(Next(w, step))
  {
    LeadershipKept(w, step);
    SeatingKept(w, step);
    FatesKept(w, step);
  }

  //  Runs

  function Start<R>(): World<R> {
    World(map[], map[], {}, 0, map[], map[], map[], map[], map[])
  }

  ghost predicate IsRun<R>(worlds: seq<World<R>>, steps: seq<Step<R>>) {
    && |worlds| == |steps| + 1 && worlds[0] == Start()
    && forall i :: 0 <= i < |steps| ==> Enabled(worlds[i], steps[i]) && worlds[i + 1] == Next(worlds[i], steps[i])
  }

  lemma {:induction false} RunKeeps<R>(worlds: seq<World<R>>, steps: seq<Step<R>>, i: nat)
    requires IsRun(worlds, steps) && i <= |steps|
    ensures Invariant(worlds[i])
  {
    if i > 0 {
      hide Invariant, Enabled, Next;
      RunKeeps(worlds, steps, i - 1);
      StepKeeps(worlds[i - 1], steps[i - 1]);
    }
  }

  /** In every run, a key has at most one request leading it. */
  lemma OneLeaderPerKey<R>(worlds: seq<World<R>>, steps: seq<Step<R>>, i: nat, a: nat, b: nat)
    requires IsRun(worlds, steps) && i <= |steps|
    requires a in worlds[i].leaders && b in worlds[i].leaders && worlds[i].leaders[a] == worlds[i].leaders[b]
    ensures a == b
  {
    RunKeeps(worlds, steps, i);
  }

  /** In every run, a slot stands exactly while a leader of its key runs or was lost. */
  lemma SlotIffLeader<R>(worlds: seq<World<R>>, steps: seq<Step<R>>, i: nat, key: string)
    requires IsRun(worlds, steps) && i <= |steps|
    ensures key in worlds[i].slots <==> exists l :: Leads(worlds[i], l, key)
  {
    RunKeeps(worlds, steps, i);
    if key in worlds[i].slots {
      assert Leads(worlds[i], worlds[i].current[key], key);
    }
  }

  /**
   In every run, a joiner that did not walk away has received something
   exactly when the leader it joined has completed, and then it is that
   leader's result, once.
   */
  lemma JoinerServedIffLeaderCompleted<R>(worlds: seq<World<R>>, steps: seq<Step<R>>, i: nat, c: Channel)
    requires IsRun(worlds, steps) && i <= |steps|
    requires c in worlds[i].joined && c !in worlds[i].gone
    ensures var w := worlds[i];
      var leader := w.joined[c].leader;
      && c in w.mail
      && (w.mail[c] != [] <==> leader in w.results)
      && (leader in w.results ==> w.mail[c] == [w.results[leader]])
  {
    RunKeeps(worlds, steps, i);
    assert Waiting(worlds[i], c) || Served(worlds[i], c);
  }

  /** One step on, the key of a lost leader is as stuck as before. */
  lemma LostLeaderStep<R>(w: World<R>, step: Step<R>, request: nat)
    requires Invariant(w) && Enabled(w, step) && request in w.lost
    ensures var next, key := Next(w, step), w.lost[request];
      && request in next.lost && next.lost[request] == key
      && key in next.slots && key in next.current && next.current[key] == request
      && (step.Arrive? && step.key == key ==> step.request !in next.leaders)
  {
    hide Seating, Fates, SendAll;
  }

  /** A leader that went away without completing blocks its key for good: the slot stays and every arrival joins it. */
  lemma {:induction false} LostLeaderBlocks<R>(worlds: seq<World<R>>, steps: seq<Step<R>>, i: nat, j: nat, request: nat)
    requires IsRun(worlds, steps) && i < j <= |steps|
    requires request in worlds[i].lost
    ensures var key := worlds[i].lost[request];
      && request in worlds[j].lost && worlds[j].lost[request] == key
      && key in worlds[j].slots
      && (steps[j - 1].Arrive? && steps[j - 1].key == key ==> steps[j - 1].request !in worlds[j].leaders)
    decreases j
  {
    hide Invariant, Enabled, Next;
    if i < j - 1 {
      LostLeaderBlocks(worlds, steps, i, j - 1, request);
    }
    RunKeeps(worlds, steps, j - 1);
    LostLeaderStep(worlds[j - 1], steps[j - 1], request);
  }

  //  The class is the protocol

  ghost predicate Matches<R(!new)>(h: HandoffInflight<R>, w: World<R>)
    reads h
  {
    h.slots == w.slots && h.mail == w.mail && h.gone == w.gone && h.channels == w.channels
  }

  /** Each step of the protocol is one call on the class, or none. */
  method Perform<R(!new)>(h: HandoffInflight<R>, ghost w: World<R>, step: Step<R>, leaderKey: string)
    requires Matches(h, w) && Invariant(w) && Enabled(w, step)
    requires step.Publish? ==> leaderKey == w.leaders[step.request]
    modifies h
    ensures Matches(h, Next(w, step))
  {
    match step
    case Arrive(_, k) =>
      var joined := h.TryLead(k);
    case Publish(_, result) => h.Complete(leaderKey, result);
    case Abandon(channel) => h.DropReceiver(channel);
    case Crash(_) =>
  }
}
