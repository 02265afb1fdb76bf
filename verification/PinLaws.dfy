/**
 The pin promise over whole runs of a backend: a pinned entry stays until its
 deadline, an alias never changes hands while its pin lives, and it serves the
 bytes last written for its owner.
 */
module PinLaws {
  import opened Prelude
  import opened CacheEntry
  import opened MemoryCache

  datatype Store = Store(cache: Entries, pins: Aliases)

  datatype Operation =
    | Lookup(key: string, pin: bool, pinTtl: nat)
    | Promote(key: string, entry: CacheEntry)
    | Revalidate(key: string, entry: CacheEntry, expected: string)
    | Write(key: string, media: Media, cost: nat, cacheUntil: nat, pinTtl: nat)
    | Claim(id: string, key: string, ttl: nat)

  /** An operation and the clock when it ran. */
  datatype Timed = At(op: Operation, now: nat)

  function Apply(s: Store, t: Timed): Store {
    match t.op
    case Lookup(key, pin, pinTtl) => s.(cache := Looked(s.cache, key, pin, pinTtl, t.now).0)
    case Promote(key, entry) => s.(cache := Promoted(s.cache, key, entry, t.now))
    case Revalidate(key, entry, expected) => s.(cache := Revalidated(s.cache, key, entry, expected, t.now))
    case Write(key, media, cost, cacheUntil, pinTtl) =>
      s.(cache := Put(s.cache, key, media, cost, cacheUntil, pinTtl, t.now))
    case Claim(id, key, ttl) =>
      var (cache, pins, _) := PinClaimed(s.cache, s.pins, id, key, ttl, t.now);
      Store(cache, pins)
  }

  function Run(s: Store, ops: seq<Timed>): Store
    decreases |ops|
  {
    if ops == [] then s else Run(Apply(s, ops[0]), ops[1..])
  }

  predicate Pinned(s: Store, key: string, until: nat) {
    key in s.cache && s.cache[key].pinUntil >= until
  }

  predicate Owns(s: Store, id: string, key: string) {
    id in s.pins && s.pins[id] == key
  }

  predicate Before(ops: seq<Timed>, until: nat) {
    forall i :: 0 <= i < |ops| ==> ops[i].now < until
  }

  /** No single operation takes a live pin away or shortens it. */
  lemma PinKept(s: Store, t: Timed, key: string, until: nat)
    requires Pinned(s, key, until) && t.now < until
    ensures Pinned(Apply(s, t), key, until)
  {
  }

  /** No single operation gives a live alias to another owner. */
  lemma AliasKept(s: Store, t: Timed, id: string, key: string, until: nat)
    requires Pinned(s, key, until) && Owns(s, id, key) && t.now < until
    ensures Owns(Apply(s, t), id, key)
  {
  }

  /** Once pinned until T, an entry is there with at least that deadline at every time before T. */
  lemma {:induction false} PinPromise(s: Store, ops: seq<Timed>, key: string, until: nat)
    requires Pinned(s, key, until) && Before(ops, until)
    ensures Pinned(Run(s, ops), key, until)
    decreases |ops|
  {
    if ops != [] {
      PinKept(s, ops[0], key, until);
      assert forall i :: 0 <= i < |ops[1..]| ==> ops[1..][i] == ops[i + 1];
      PinPromise(Apply(s, ops[0]), ops[1..], key, until);
    }
  }

  /** While its owner's pin lives, an alias does not change hands, whoever claims it. */
  lemma {:induction false} AliasKeepsOwner(s: Store, ops: seq<Timed>, id: string, key: string, until: nat)
    requires Pinned(s, key, until) && Owns(s, id, key) && Before(ops, until)
    ensures Owns(Run(s, ops), id, key)
    decreases |ops|
  {
    if ops != [] {
      PinKept(s, ops[0], key, until);
      AliasKept(s, ops[0], id, key, until);
      assert forall i :: 0 <= i < |ops[1..]| ==> ops[1..][i] == ops[i + 1];
      AliasKeepsOwner(Apply(s, ops[0]), ops[1..], id, key, until);
    }
  }

  /** A second owner is turned away for exactly as long as the first one's pin lives. */
  lemma ClaimConflicts(s: Store, id: string, owner: string, other: string, ttl: nat, now: nat)
    requires Owns(s, id, owner) && owner != other
    ensures PinClaimed(s.cache, s.pins, id, other, ttl, now).2 == Conflict
       <==> owner in s.cache && s.cache[owner].pinUntil > now
  {
  }

  /** The operation replaces what is stored for `key`: a write, or a revalidation that expects the stored token. */
  predicate Rewrites(s: Store, op: Operation, key: string) {
    match op
    case Write(k, _, _, _, _) => k == key
    case Revalidate(k, _, expected) => k == key && (key in s.cache ==> s.cache[key].media.cache == expected)
    case _ => false
  }

  /** None of the operations, each when its turn comes, replaces what is stored for `key`. */
  predicate LeaveAlone(s: Store, ops: seq<Timed>, key: string)
    decreases |ops|
  {
    ops != [] ==> !Rewrites(s, ops[0].op, key) && LeaveAlone(Apply(s, ops[0]), ops[1..], key)
  }

  lemma BytesKept(s: Store, t: Timed, key: string, until: nat)
    requires Pinned(s, key, until) && t.now < until && !Rewrites(s, t.op, key)
    ensures key in Apply(s, t).cache
    ensures Apply(s, t).cache[key].media == s.cache[key].media
  {
  }

  /** The payload of a pinned entry changes by writes of its key and by revalidations that find the token they expect. */
  lemma {:induction false} OnlyRewritesChangeBytes(s: Store, ops: seq<Timed>, key: string, until: nat)
    requires Pinned(s, key, until) && Before(ops, until) && LeaveAlone(s, ops, key)
    ensures Pinned(Run(s, ops), key, until)
    ensures Run(s, ops).cache[key].media == s.cache[key].media
    decreases |ops|
  {
    if ops != [] {
      PinKept(s, ops[0], key, until);
      BytesKept(s, ops[0], key, until);
      assert forall i :: 0 <= i < |ops[1..]| ==> ops[1..][i] == ops[i + 1];
      OnlyRewritesChangeBytes(Apply(s, ops[0]), ops[1..], key, until);
    }
  }

  /** The payload a rewrite stores. */
  function Payload(op: Operation): Media
    requires op.Write? || op.Revalidate?
  {
    match op
    case Write(_, media, _, _, _) => media
    case Revalidate(_, entry, _) => entry.media
  }

  lemma RewriteStores(s: Store, t: Timed, key: string, until: nat)
    requires Pinned(s, key, until) && t.now < until && Rewrites(s, t.op, key)
    ensures var after := Apply(s, t).cache;
      key in after && after[key].media == Payload(t.op).(url := "")
  {
  }

  /** After the last rewrite for its owner, a live alias serves exactly the bytes and token of that rewrite. */
  lemma {:induction false} AliasServesLatestRewrite(s: Store, earlier: seq<Timed>, rewrite: Timed, later: seq<Timed>,
                                                    id: string, key: string, until: nat, now: nat)
    requires Pinned(s, key, until) && Owns(s, id, key)
    requires Before(earlier, until) && rewrite.now < until && Before(later, until) && now < until
    requires Rewrites(Run(s, earlier), rewrite.op, key)
    requires LeaveAlone(Apply(Run(s, earlier), rewrite), later, key)
    ensures var end := Run(Apply(Run(s, earlier), rewrite), later);
      var pinned := PinData(end.cache, end.pins, id, now);
      && pinned.Some? && pinned.value.until >= until
      && pinned.value.bytes == Payload(rewrite.op).thumbnail && pinned.value.cache == Payload(rewrite.op).cache
  {
    PinPromise(s, earlier, key, until);
    AliasKeepsOwner(s, earlier, id, key, until);
    var before := Run(s, earlier);
    RewriteStores(before, rewrite, key, until);
    PinKept(before, rewrite, key, until);
    AliasKept(before, rewrite, id, key, until);
    var written := Apply(before, rewrite);
    hide Run, Apply, Rewrites, LeaveAlone, Before;
    AliasKeepsOwner(written, later, id, key, until);
    OnlyRewritesChangeBytes(written, later, key, until);
  }

  /** A successful claim starts the promise: the deadline is at least `ttl` away. */
  lemma ClaimStartsPromise(s: Store, id: string, key: string, ttl: nat, now: nat)
    requires PinClaimed(s.cache, s.pins, id, key, ttl, now).2 == Claimed
    ensures var next := Apply(s, At(Claim(id, key, ttl), now));
      Pinned(next, key, SaturatingAdd(now, ttl)) && Owns(next, id, key)
  {
  }

  /**
   A successful claim holds: whatever happens until `ttl` has passed, its
   owner's entry stays, and a claim of the same name by another is turned away.
   */
  lemma ClaimHolds(s: Store, id: string, key: string, ttl: nat, now: nat, later: seq<Timed>,
                   other: string, otherTtl: nat, moment: nat)
    requires PinClaimed(s.cache, s.pins, id, key, ttl, now).2 == Claimed && other != key
    requires Before(later, SaturatingAdd(now, ttl)) && moment < SaturatingAdd(now, ttl)
    ensures var end := Run(Apply(s, At(Claim(id, key, ttl), now)), later);
      && Pinned(end, key, SaturatingAdd(now, ttl)) && Owns(end, id, key)
      && PinClaimed(end.cache, end.pins, id, other, otherTtl, moment).2 == Conflict
  {
    var until, claimed := SaturatingAdd(now, ttl), Apply(s, At(Claim(id, key, ttl), now));
    ClaimStartsPromise(s, id, key, ttl, now);
    PinPromise(claimed, later, key, until);
    AliasKeepsOwner(claimed, later, id, key, until);
    ClaimConflicts(Run(claimed, later), id, key, other, otherTtl, moment);
  }
}
