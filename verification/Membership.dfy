/** The member and fence tables of the discovery service: leases, generation fences with bounded memory, and the
    statistics. A run is any sequence of the locked regions at nondecreasing times. */
module Membership {
  import opened Bytes

  type Name = seq<Byte>

  datatype Endpoint = Endpoint(address: seq<Byte>, port: U16)

  datatype Announcement = Announcement(node: Name, generation: U64, sequence: U64, endpoint: Endpoint)

  datatype Config = Config(node: Name, lease: int, fenceTimeout: int, maxMembers: nat, maxFences: nat)

  /** What DiscoveryService::Create demands of these fields. */
  predicate ValidConfig(cfg: Config) {
    0 < cfg.lease <= cfg.fenceTimeout && cfg.maxMembers > 0 && cfg.maxFences > 0
  }

  datatype Member = Member(generation: U64, sequence: U64, endpoint: Endpoint, lastSeen: int)

  datatype Fence = Fence(generation: U64, expiresAt: int)

  /** inserted, refreshed and lifted are history: announcements that added a member, that updated one, and fences removed
      because a newer incarnation was admitted. */
  datatype Stats = Stats(
    received: nat, stale: nat, duplicate: nat, rejections: nat, drops: nat, expired: nat,
    created: nat, fencesExpired: nat, evictions: nat, inserted: nat, refreshed: nat, lifted: nat)

  datatype State = State(now: int, members: map<Name, Member>, fences: map<Name, Fence>, stats: Stats)

  function Start(now: int): State {
    State(now, map[], map[], Stats(0, 0, 0, 0, 0, 0, 0, 0, 0, 0, 0, 0))
  }

  /** ExpireGenerationFencesLocked. */
  function ExpireFencesOf(s: State, t: int): State {
    var kept := map n | n in s.fences && t < s.fences[n].expiresAt :: s.fences[n];
    Fewer(s.fences, kept);
    s.(fences := kept, stats := s.stats.(fencesExpired := s.stats.fencesExpired + (|s.fences| - |kept|)))
  }

  lemma Fewer<K, V>(m: map<K, V>, kept: map<K, V>)
    requires kept.Keys <= m.Keys
    ensures |kept| <= |m|
  {
    Subset(kept.Keys, m.Keys);
  }

  lemma {:induction false} Subset<K>(a: set<K>, b: set<K>)
    requires a <= b
    ensures |a| <= |b|
    decreases a
  {
    if a != {} {
      var x :| x in a;
      Subset(a - {x}, b - {x});
    }
  }

  /** A fence that std::min_element may name: none expires earlier. */
  predicate Oldest(fences: map<Name, Fence>, victim: Name) {
    victim in fences && forall n :: n in fences ==> fences[victim].expiresAt <= fences[n].expiresAt
  }

  /** Whether a new fence for this node pushes an old one out. */
  predicate Evicts(cfg: Config, s: State, node: Name) {
    node !in s.fences && |s.fences| >= cfg.maxFences && s.fences != map[]
  }

  /** RememberGenerationFenceLocked. */
  function RememberOf(cfg: Config, s: State, node: Name, m: Member, t: int, victim: Name): State {
    if node in s.fences then
      var g := if s.fences[node].generation < m.generation then m.generation else s.fences[node].generation;
      s.(fences := s.fences[node := Fence(g, t + cfg.fenceTimeout)])
    else
      var evict := Evicts(cfg, s, node);
      s.(fences := (if evict then s.fences - {victim} else s.fences)[node := Fence(m.generation, t + cfg.fenceTimeout)],
         stats := s.stats.(created := s.stats.created + 1, evictions := s.stats.evictions + if evict then 1 else 0))
  }

  predicate Overdue(cfg: Config, m: Member, t: int) {
    t - m.lastSeen > cfg.lease
  }

  /** One round of the loop of ExpireMembers. */
  function ExpireOf(cfg: Config, s: State, node: Name, t: int, victim: Name): State
    requires node in s.members
  {
    var r := RememberOf(cfg, s, node, s.members[node], t, victim);
    r.(members := r.members - {node}, stats := r.stats.(expired := r.stats.expired + 1))
  }

  /** A member is added, and a fence against older incarnations of it lifted. */
  function Insert(s: State, node: Name, m: Member): State {
    s.(members := s.members[node := m], fences := s.fences - {node},
       stats := s.stats.(inserted := s.stats.inserted + 1, lifted := s.stats.lifted + if node in s.fences then 1 else 0))
  }

  /** Accept for an announcement of a node that is not a member. */
  function AdmitOf(cfg: Config, s: State, a: Announcement, t: int): State {
    if a.node in s.fences && a.generation <= s.fences[a.node].generation then
      s.(stats := s.stats.(stale := s.stats.stale + 1, rejections := s.stats.rejections + 1))
    else if |s.members| >= cfg.maxMembers then
      s.(stats := s.stats.(drops := s.stats.drops + 1))
    else Insert(s, a.node, Member(a.generation, a.sequence, a.endpoint, t))
  }

  /** Accept for an announcement of a member. */
  function RefreshOf(s: State, a: Announcement, t: int): State
    requires a.node in s.members
  {
    var m := s.members[a.node];
    if a.generation < m.generation then s.(stats := s.stats.(stale := s.stats.stale + 1))
    else if a.generation == m.generation && a.sequence <= m.sequence then
      s.(stats := s.stats.(duplicate := s.stats.duplicate + 1))
    else
      s.(members := s.members[a.node := Member(a.generation, a.sequence, a.endpoint, t)],
         stats := s.stats.(refreshed := s.stats.refreshed + 1))
  }

  function Received(s: State, t: int): State {
    ExpireFencesOf(s.(stats := s.stats.(received := s.stats.received + 1)), t)
  }

  /** Accept. */
  function AcceptOf(cfg: Config, s: State, a: Announcement, t: int): State {
    if a.node == cfg.node then s
    else
      var r := Received(s, t);
      if a.node in r.members then RefreshOf(r, a, t) else AdmitOf(cfg, r, a, t)
  }

  datatype Action =
    | Accept(t: int, announcement: Announcement)
    | ExpireFences(t: int)
    | Expire(t: int, node: Name, victim: Name)

  predicate Enabled(cfg: Config, s: State, a: Action) {
    && s.now <= a.t
    && (a.Expire? ==>
          && a.node in s.members && Overdue(cfg, s.members[a.node], a.t)
          && (Evicts(cfg, s, a.node) ==> Oldest(s.fences, a.victim)))
  }

  function Apply(cfg: Config, s: State, a: Action): State
    requires Enabled(cfg, s, a)
  {
    (match a
     case Accept(t, announcement) => AcceptOf(cfg, s, announcement, t)
     case ExpireFences(t) => ExpireFencesOf(s, t)
     case Expire(t, node, victim) => ExpireOf(cfg, s, node, t, victim)).(now := a.t)
  }

  predicate Legal(cfg: Config, s: State, run: seq<Action>)
    decreases |run|
  {
    run == [] || (Enabled(cfg, s, run[0]) && Legal(cfg, Apply(cfg, s, run[0]), run[1..]))
  }

  function After(cfg: Config, s: State, run: seq<Action>): State
    requires Legal(cfg, s, run)
    decreases |run|
  {
    if run == [] then s else After(cfg, Apply(cfg, s, run[0]), run[1..])
  }

  // ----- bounds, disjointness and the books -----

  /** Every announcement received has one outcome, every member that ever was is present or expired, and every fence ever
      made is present, timed out, evicted or lifted. */
  predicate Books(s: State) {
    BooksBut(s, 0)
  }

  /** The books with some announcements received and not yet dealt with. */
  predicate BooksBut(s: State, open: nat) {
    Balanced(s.stats, |s.members|, |s.fences|, open)
  }

  predicate Balanced(st: Stats, members: nat, fences: nat, open: nat) {
    && st.received == st.inserted + st.refreshed + st.stale + st.duplicate + st.drops + open
    && st.inserted == members + st.expired
    && st.created == fences + st.fencesExpired + st.evictions + st.lifted
    && st.rejections <= st.stale
  }

  predicate Bounded(cfg: Config, s: State) {
    && |s.members| <= cfg.maxMembers && |s.fences| <= cfg.maxFences
    && s.members.Keys !! s.fences.Keys
    && cfg.node !in s.members && cfg.node !in s.fences
  }

  ghost predicate Timely(cfg: Config, s: State) {
    && (forall n :: n in s.members ==> s.members[n].lastSeen <= s.now)
    && (forall n :: n in s.fences ==> s.fences[n].expiresAt <= s.now + cfg.fenceTimeout)
  }

  ghost predicate Inv(cfg: Config, s: State) {
    Books(s) && Bounded(cfg, s) && Timely(cfg, s)
  }

  lemma StartHolds(cfg: Config, now: int)
    ensures Inv(cfg, Start(now))
  {
  }

  lemma Present<K, V>(m: map<K, V>, k: K)
    ensures k in m ==> |m| > 0
  {
  }

  lemma Removed<K, V>(m: map<K, V>, k: K)
    ensures |m - {k}| == if k in m then |m| - 1 else |m|
  {
    assert (m - {k}).Keys == m.Keys - {k};
  }

  lemma Added<K, V>(m: map<K, V>, k: K, v: V)
    ensures |m[k := v]| == if k in m then |m| else |m| + 1
  {
    assert m[k := v].Keys == m.Keys + {k};
  }

  lemma ExpireFencesKeeps(cfg: Config, s: State, t: int)
    requires Inv(cfg, s) && s.now <= t
    ensures Inv(cfg, ExpireFencesOf(s, t).(now := t))
  {
    Fewer(s.fences, ExpireFencesOf(s, t).fences);
  }

  lemma ExpireKeeps(cfg: Config, s: State, node: Name, t: int, victim: Name)
    requires Inv(cfg, s) && Enabled(cfg, s, Expire(t, node, victim))
    ensures ValidConfig(cfg) ==> Inv(cfg, ExpireOf(cfg, s, node, t, victim).(now := t))
  {
    Removed(s.members, node);
    Removed(s.fences, victim);
    var base := if Evicts(cfg, s, node) then s.fences - {victim} else s.fences;
    Added(base, node, Fence(s.members[node].generation, t + cfg.fenceTimeout));
  }

  lemma AdmitBooks(cfg: Config, s: State, a: Announcement, t: int)
    requires BooksBut(s, 1) && a.node !in s.members
    ensures Books(AdmitOf(cfg, s, a, t).(now := t))
  {
    hide Balanced, Insert;
    Present(s.fences, a.node);
    AdmitBalances(s.stats, |s.members|, |s.fences|, a.node in s.fences);
    InsertBooks(s, a.node, Member(a.generation, a.sequence, a.endpoint, t));
  }

  lemma InsertBooks(s: State, node: Name, m: Member)
    requires BooksBut(s, 1) && node !in s.members
    ensures Books(Insert(s, node, m))
  {
    hide Balanced, Insert;
    InsertSizes(s, node, m);
    AdmitBalances(s.stats, |s.members|, |s.fences|, node in s.fences);
  }

  lemma InsertSizes(s: State, node: Name, m: Member)
    requires node !in s.members
    ensures var r := Insert(s, node, m);
            && |r.members| == |s.members| + 1 && (node in s.fences ==> |s.fences| > 0)
            && |r.fences| == (if node in s.fences then |s.fences| - 1 else |s.fences|)
            && r.stats == s.stats.(inserted := s.stats.inserted + 1,
                                   lifted := s.stats.lifted + if node in s.fences then 1 else 0)
  {
    Present(s.fences, node);
    assert |Insert(s, node, m).members| == |s.members| + 1 by { Added(s.members, node, m); }
    Removed(s.fences, node);
  }

  lemma AdmitBalances(st: Stats, members: nat, fences: nat, lift: bool)
    requires Balanced(st, members, fences, 1) && (lift ==> fences > 0)
    ensures Balanced(st.(stale := st.stale + 1, rejections := st.rejections + 1), members, fences, 0)
    ensures Balanced(st.(drops := st.drops + 1), members, fences, 0)
    ensures Balanced(st.(inserted := st.inserted + 1, lifted := st.lifted + if lift then 1 else 0),
                     members + 1, if lift then fences - 1 else fences, 0)
  {
  }

  lemma AdmitKeeps(cfg: Config, s: State, a: Announcement, t: int)
    requires BooksBut(s, 1) && Bounded(cfg, s) && Timely(cfg, s) && s.now <= t && a.node !in s.members && a.node != cfg.node
    ensures Inv(cfg, AdmitOf(cfg, s, a, t).(now := t))
  {
    hide AdmitOf, Books, BooksBut, Bounded, Timely;
    AdmitBooks(cfg, s, a, t);
    AdmitBounded(cfg, s, a, t);
    AdmitTimely(cfg, s, a, t);
  }

  lemma AdmitBounded(cfg: Config, s: State, a: Announcement, t: int)
    requires Bounded(cfg, s) && a.node !in s.members && a.node != cfg.node
    ensures Bounded(cfg, AdmitOf(cfg, s, a, t).(now := t))
  {
    Added(s.members, a.node, Member(a.generation, a.sequence, a.endpoint, t));
    Removed(s.fences, a.node);
  }

  lemma AdmitTimely(cfg: Config, s: State, a: Announcement, t: int)
    requires Timely(cfg, s) && s.now <= t
    ensures Timely(cfg, AdmitOf(cfg, s, a, t).(now := t))
  {
  }

  lemma LaterKeeps(cfg: Config, s: State, t: int)
    requires Inv(cfg, s) && s.now <= t
    ensures Inv(cfg, s.(now := t))
  {
  }

  lemma RefreshKeeps(cfg: Config, s: State, a: Announcement, t: int)
    requires BooksBut(s, 1) && Bounded(cfg, s) && Timely(cfg, s) && s.now <= t && a.node in s.members
    ensures Inv(cfg, RefreshOf(s, a, t).(now := t))
  {
    Added(s.members, a.node, Member(a.generation, a.sequence, a.endpoint, t));
  }

  lemma ReceivedKeeps(cfg: Config, s: State, t: int)
    requires Inv(cfg, s) && s.now <= t
    ensures BooksBut(Received(s, t), 1) && Bounded(cfg, Received(s, t)) && Timely(cfg, Received(s, t))
    ensures Received(s, t).now == s.now && Received(s, t).members == s.members
  {
    Fewer(s.fences, ExpireFencesOf(s, t).fences);
  }

  lemma AcceptKeeps(cfg: Config, s: State, a: Announcement, t: int)
    requires Inv(cfg, s) && s.now <= t
    ensures Inv(cfg, AcceptOf(cfg, s, a, t).(now := t))
  {
    hide Received, AdmitOf, RefreshOf, BooksBut, Bounded;
    if a.node != cfg.node {
      ReceivedKeeps(cfg, s, t);
      if a.node in s.members {
        RefreshKeeps(cfg, Received(s, t), a, t);
      } else {
        AdmitKeeps(cfg, Received(s, t), a, t);
      }
    } else {
      LaterKeeps(cfg, s, t);
    }
  }

  lemma StepKeeps(cfg: Config, s: State, a: Action)
    requires ValidConfig(cfg) && Inv(cfg, s) && Enabled(cfg, s, a)
    ensures Inv(cfg, Apply(cfg, s, a))
  {
    hide Inv, AcceptOf, ExpireFencesOf, ExpireOf;
    match a
    case Accept(t, announcement) => AcceptKeeps(cfg, s, announcement, t);
    case ExpireFences(t) => ExpireFencesKeeps(cfg, s, t);
    case Expire(t, node, victim) => ExpireKeeps(cfg, s, node, t, victim);
  }

  lemma {:induction false} RunKeeps(cfg: Config, s: State, run: seq<Action>)
    requires ValidConfig(cfg) && Inv(cfg, s) && Legal(cfg, s, run)
    ensures Inv(cfg, After(cfg, s, run)) && s.now <= After(cfg, s, run).now
    decreases |run|
  {
    hide Inv, AcceptOf, ExpireFencesOf, ExpireOf;
    if run != [] {
      StepKeeps(cfg, s, run[0]);
      RunKeeps(cfg, Apply(cfg, s, run[0]), run[1..]);
    }
  }

  /** In every reachable state both tables are within their limits, no node is both a member and fenced, and the books
      balance. */
  lemma TablesStayBounded(cfg: Config, now: int, run: seq<Action>)
    requires ValidConfig(cfg) && Legal(cfg, Start(now), run)
    ensures Bounded(cfg, After(cfg, Start(now), run)) && Books(After(cfg, Start(now), run))
  {
    hide Legal, After, Books, Bounded, Timely;
    StartHolds(cfg, now);
    RunKeeps(cfg, Start(now), run);
  }

  /** So a member that expires is never already fenced, and a fence that is pushed out is one that no other outlives by
      less: neither a remaining one nor the new one expires before it. */
  lemma EvictedIsOldest(cfg: Config, now: int, run: seq<Action>, t: int, node: Name, victim: Name)
    requires ValidConfig(cfg) && Legal(cfg, Start(now), run)
    requires Enabled(cfg, After(cfg, Start(now), run), Expire(t, node, victim))
    ensures var s := After(cfg, Start(now), run);
            FencedAnew(cfg, s, Apply(cfg, s, Expire(t, node, victim)), t, node, victim)
  {
    hide Legal, After, FencedAnew, Inv, Apply;
    StartHolds(cfg, now);
    RunKeeps(cfg, Start(now), run);
    ExpireMakesFence(cfg, After(cfg, Start(now), run), t, node, victim);
  }

  ghost predicate FencedAnew(cfg: Config, s: State, r: State, t: int, node: Name, victim: Name) {
    && node in s.members && node !in s.fences && node in r.fences
    && r.fences[node] == Fence(s.members[node].generation, t + cfg.fenceTimeout)
    && (|s.fences| < cfg.maxFences ==> r.fences == s.fences[node := r.fences[node]])
    && (|s.fences| >= cfg.maxFences ==>
          && victim in s.fences && victim !in r.fences
          && r.fences == (s.fences - {victim})[node := r.fences[node]]
          && forall n :: n in r.fences ==> s.fences[victim].expiresAt <= r.fences[n].expiresAt)
  }

  lemma ExpireMakesFence(cfg: Config, s: State, t: int, node: Name, victim: Name)
    requires ValidConfig(cfg) && Inv(cfg, s) && Enabled(cfg, s, Expire(t, node, victim))
    ensures FencedAnew(cfg, s, Apply(cfg, s, Expire(t, node, victim)), t, node, victim)
  {
    hide Books;
  }

  // ----- generation fencing -----

  /** Incarnations of the node up to generation g are shut out until time limit. */
  predicate Guarded(cfg: Config, s: State, node: Name, g: U64, limit: int) {
    && limit <= s.now + cfg.fenceTimeout
    && (|| (node in s.members && s.members[node].generation > g)
        || (node in s.fences && s.fences[node].generation >= g && s.fences[node].expiresAt >= limit))
  }

  /** The step takes the node's fence away for want of room. */
  predicate PushesOut(cfg: Config, s: State, a: Action, node: Name) {
    a.Expire? && Evicts(cfg, s, a.node) && a.victim == node
  }

  predicate SameMember(s: State, r: State, node: Name) {
    (node in s.members <==> node in r.members) && (node in s.members ==> r.members[node] == s.members[node])
  }

  lemma ExpireGuards(cfg: Config, s: State, t: int, node: Name, victim: Name)
    requires Inv(cfg, s) && Enabled(cfg, s, Expire(t, node, victim))
    ensures Guarded(cfg, Apply(cfg, s, Expire(t, node, victim)), node, s.members[node].generation, t + cfg.fenceTimeout)
  {
  }

  lemma AdmitGuards(cfg: Config, s: State, a: Announcement, t: int, node: Name, g: U64, limit: int)
    requires Guarded(cfg, s, node, g, limit) && s.now <= t && a.node !in s.members
    ensures var r := AdmitOf(cfg, s, a, t).(now := t);
            Guarded(cfg, r, node, g, limit) && (a.node == node && a.generation <= g ==> SameMember(s, r, node))
  {
  }

  lemma RefreshGuards(cfg: Config, s: State, a: Announcement, t: int, node: Name, g: U64, limit: int)
    requires Bounded(cfg, s) && Guarded(cfg, s, node, g, limit) && s.now <= t && a.node in s.members
    ensures var r := RefreshOf(s, a, t).(now := t);
            Guarded(cfg, r, node, g, limit) && (a.node == node && a.generation <= g ==> SameMember(s, r, node))
  {
  }

  lemma AcceptGuards(cfg: Config, s: State, a: Announcement, t: int, node: Name, g: U64, limit: int)
    requires Inv(cfg, s) && Guarded(cfg, s, node, g, limit) && s.now <= t < limit
    ensures var r := AcceptOf(cfg, s, a, t).(now := t);
            && Guarded(cfg, r, node, g, limit)
            && (a.node == node && a.generation <= g ==> SameMember(s, r, node))
  {
    hide AdmitOf, RefreshOf, BooksBut;
    if a.node != cfg.node {
      ReceivedKeeps(cfg, s, t);
      assert Guarded(cfg, Received(s, t), node, g, limit);
      if a.node in s.members {
        RefreshGuards(cfg, Received(s, t), a, t, node, g, limit);
      } else {
        AdmitGuards(cfg, Received(s, t), a, t, node, g, limit);
      }
    }
  }

  lemma GuardedMember(cfg: Config, s: State, node: Name, g: U64, limit: int)
    requires Inv(cfg, s) && Guarded(cfg, s, node, g, limit) && node in s.members
    ensures s.members[node].generation > g
  {
  }

  lemma StepGuards(cfg: Config, s: State, a: Action, node: Name, g: U64, limit: int)
    requires Inv(cfg, s) && Enabled(cfg, s, a) && Guarded(cfg, s, node, g, limit)
    requires a.t < limit && !PushesOut(cfg, s, a, node)
    ensures var r := Apply(cfg, s, a);
            && Guarded(cfg, r, node, g, limit)
            && (a.Accept? && a.announcement.node == node && a.announcement.generation <= g ==> SameMember(s, r, node))
  {
    if a.Accept? {
      AcceptGuards(cfg, s, a.announcement, a.t, node, g, limit);
    }
  }

  /** The run keeps to times before the limit and never pushes the node's fence out. */
  predicate Spares(cfg: Config, s: State, run: seq<Action>, node: Name, limit: int)
    requires Legal(cfg, s, run)
    decreases |run|
  {
    run == [] ||
    (run[0].t < limit && !PushesOut(cfg, s, run[0], node) && Spares(cfg, Apply(cfg, s, run[0]), run[1..], node, limit))
  }

  lemma {:induction false} RunGuards(cfg: Config, s: State, run: seq<Action>, node: Name, g: U64, limit: int)
    requires ValidConfig(cfg) && Inv(cfg, s) && Legal(cfg, s, run) && Guarded(cfg, s, node, g, limit)
    requires Spares(cfg, s, run, node, limit)
    ensures Guarded(cfg, After(cfg, s, run), node, g, limit)
    decreases |run|
  {
    hide Inv, Apply, Enabled, Guarded, PushesOut;
    if run != [] {
      StepKeeps(cfg, s, run[0]);
      StepGuards(cfg, s, run[0], node, g, limit);
      RunGuards(cfg, Apply(cfg, s, run[0]), run[1..], node, g, limit);
    }
  }

  /** Generation fencing over whole runs. From any reachable state, let a node expire; then however the service goes on,
      as long as the fence timeout has not passed and the node's fence has not been pushed out, an announcement of that
      node with the expired generation or an older one changes nothing about the node, and the node is a member only with
      a newer generation. */
  lemma OldIncarnationStaysOut(
    cfg: Config, now: int, before: seq<Action>, t: int, node: Name, victim: Name, run: seq<Action>, late: Announcement, t1: int)
    requires ValidConfig(cfg) && Legal(cfg, Start(now), before)
    requires Enabled(cfg, After(cfg, Start(now), before), Expire(t, node, victim))
    requires Legal(cfg, Apply(cfg, After(cfg, Start(now), before), Expire(t, node, victim)), run)
    requires Spares(cfg, Apply(cfg, After(cfg, Start(now), before), Expire(t, node, victim)), run, node, t + cfg.fenceTimeout)
    requires var s := After(cfg, Start(now), before);
             var u := After(cfg, Apply(cfg, s, Expire(t, node, victim)), run);
             late.node == node && late.generation <= s.members[node].generation && u.now <= t1 < t + cfg.fenceTimeout
    ensures var s := After(cfg, Start(now), before);
            var u := After(cfg, Apply(cfg, s, Expire(t, node, victim)), run);
            && (node in u.members ==> u.members[node].generation > s.members[node].generation)
            && SameMember(u, AcceptOf(cfg, u, late, t1), node)
  {
    hide Apply, AcceptOf, Inv, Guarded, Legal, After, Spares, SameMember;
    StartHolds(cfg, now);
    RunKeeps(cfg, Start(now), before);
    var s := After(cfg, Start(now), before);
    var g := s.members[node].generation;
    ExpireGuards(cfg, s, t, node, victim);
    StepKeeps(cfg, s, Expire(t, node, victim));
    var r := Apply(cfg, s, Expire(t, node, victim));
    RunKeeps(cfg, r, run);
    RunGuards(cfg, r, run, node, g, t + cfg.fenceTimeout);
    var u := After(cfg, r, run);
    AcceptGuards(cfg, u, late, t1, node, g, t + cfg.fenceTimeout);
    if node in u.members {
      GuardedMember(cfg, u, node, g, t + cfg.fenceTimeout);
    }
    NowIsNoMatter(u, AcceptOf(cfg, u, late, t1), t1, node);
  }

  lemma NowIsNoMatter(s: State, r: State, t: int, node: Name)
    ensures SameMember(s, r.(now := t), node) ==> SameMember(s, r, node)
  {
  }

  /** Both exceptions are real: of a node that is not a member, any incarnation is admitted if and only if there is room
      and the node is not (or at that time no longer) fenced at its generation or a later one. */
  lemma AdmittedIff(cfg: Config, s: State, a: Announcement, t: int)
    requires a.node !in s.members && a.node != cfg.node
    ensures a.node in AcceptOf(cfg, s, a, t).members
       <==> |s.members| < cfg.maxMembers
            && !(a.node in s.fences && t < s.fences[a.node].expiresAt && a.generation <= s.fences[a.node].generation)
  {
  }

  // ----- the heartbeat order -----

  predicate Newer(m: Member, than: Member) {
    m.generation > than.generation || (m.generation == than.generation && m.sequence > than.sequence)
  }

  predicate Risen(was: Member, m: Member) {
    m == was || Newer(m, was)
  }

  lemma StepRises(cfg: Config, s: State, a: Action, node: Name)
    requires Enabled(cfg, s, a) && node in s.members && node in Apply(cfg, s, a).members
    ensures Risen(s.members[node], Apply(cfg, s, a).members[node])
  {
  }

  /** The node is a member before and after every step of the run. */
  predicate Stays(cfg: Config, s: State, run: seq<Action>, node: Name)
    requires Legal(cfg, s, run)
    decreases |run|
  {
    node in s.members && (run == [] || Stays(cfg, Apply(cfg, s, run[0]), run[1..], node))
  }

  /** While a node stays a member its record changes only to a strictly later generation and sequence, in lexicographic
      order. */
  lemma {:induction false} MembersOnlyRise(cfg: Config, s: State, run: seq<Action>, node: Name)
    requires Legal(cfg, s, run) && Stays(cfg, s, run, node)
    ensures node in s.members && node in After(cfg, s, run).members
    ensures Risen(s.members[node], After(cfg, s, run).members[node])
    decreases |run|
  {
    hide Apply, Enabled;
    if run != [] {
      StepRises(cfg, s, run[0], node);
      MembersOnlyRise(cfg, Apply(cfg, s, run[0]), run[1..], node);
    }
  }

  // ----- leases -----

  /** The announcement tells more than the record. */
  predicate News(a: Announcement, m: Member) {
    a.generation > m.generation || (a.generation == m.generation && a.sequence > m.sequence)
  }

  predicate Announces(a: Action, node: Name) {
    a.Accept? && a.announcement.node == node
  }

  /** The record is what this action announced, with its endpoint and at its time. */
  predicate Records(a: Action, node: Name, m: Member) {
    && Announces(a, node)
    && m == Member(a.announcement.generation, a.announcement.sequence, a.announcement.endpoint, a.t)
  }

  /** The action neither expires the node nor announces anything new of it. */
  predicate Passes(a: Action, node: Name, m: Member) {
    !(a.Expire? && a.node == node) && (Announces(a, node) ==> !News(a.announcement, m))
  }

  /** The members after an announcement. */
  function Heard(cfg: Config, s: State, a: Announcement, t: int): map<Name, Member> {
    var record := Member(a.generation, a.sequence, a.endpoint, t);
    if a.node == cfg.node then s.members
    else if a.node in s.members then (if News(a, s.members[a.node]) then s.members[a.node := record] else s.members)
    else if Admits(cfg, s, a, t) then s.members[a.node := record]
    else s.members
  }

  predicate Admits(cfg: Config, s: State, a: Announcement, t: int) {
    && |s.members| < cfg.maxMembers
    && !(a.node in s.fences && t < s.fences[a.node].expiresAt && a.generation <= s.fences[a.node].generation)
  }

  lemma RefreshMembers(s: State, a: Announcement, t: int)
    requires a.node in s.members
    ensures RefreshOf(s, a, t).members
         == if News(a, s.members[a.node]) then s.members[a.node := Member(a.generation, a.sequence, a.endpoint, t)]
            else s.members
  {
  }

  lemma AdmitMembers(cfg: Config, s: State, a: Announcement, t: int)
    requires |s.members| < cfg.maxMembers && !(a.node in s.fences && a.generation <= s.fences[a.node].generation)
    ensures AdmitOf(cfg, s, a, t).members == s.members[a.node := Member(a.generation, a.sequence, a.endpoint, t)]
  {
  }

  lemma RefuseMembers(cfg: Config, s: State, a: Announcement, t: int)
    requires |s.members| >= cfg.maxMembers || (a.node in s.fences && a.generation <= s.fences[a.node].generation)
    ensures AdmitOf(cfg, s, a, t).members == s.members
  {
  }

  lemma LiveFences(s: State, t: int, node: Name)
    ensures var r := Received(s, t);
            && r.members == s.members && (node in r.fences <==> node in s.fences && t < s.fences[node].expiresAt)
            && (node in r.fences ==> r.fences[node] == s.fences[node])
  {
  }

  lemma AcceptMembers(cfg: Config, s: State, a: Announcement, t: int)
    ensures AcceptOf(cfg, s, a, t).members == Heard(cfg, s, a, t)
  {
    hide Received, RefreshOf, AdmitOf, News;
    var r := Received(s, t);
    LiveFences(s, t, a.node);
    if a.node != cfg.node {
      if a.node in s.members {
        RefreshMembers(r, a, t);
      } else if Admits(cfg, s, a, t) {
        AdmitMembers(cfg, r, a, t);
      } else {
        RefuseMembers(cfg, r, a, t);
      }
    }
  }

  /** What each step does to the members. */
  lemma MembersAfter(cfg: Config, s: State, a: Action)
    requires Enabled(cfg, s, a)
    ensures Apply(cfg, s, a).members
         == match a
            case Accept(t, announcement) => Heard(cfg, s, announcement, t)
            case ExpireFences(_) => s.members
            case Expire(_, node, _) => s.members - {node}
  {
    hide AcceptOf, Heard, ExpireFencesOf, RememberOf;
    match a
    case Accept(t, announcement) => AcceptMembers(cfg, s, announcement, t);
    case ExpireFences(t) => SameMembers(s, t);
    case Expire(t, node, victim) => RememberMembers(cfg, s, node, s.members[node], t, victim);
  }

  lemma RememberMembers(cfg: Config, s: State, node: Name, m: Member, t: int, victim: Name)
    ensures RememberOf(cfg, s, node, m, t, victim).members == s.members
  {
  }

  lemma StepRecords(cfg: Config, s: State, a: Action, node: Name)
    requires Bounded(cfg, s) && Enabled(cfg, s, a) && node in Apply(cfg, s, a).members
    ensures var m := Apply(cfg, s, a).members[node];
            Records(a, node, m) || (node in s.members && s.members[node] == m && Passes(a, node, m))
  {
    hide Apply, Admits;
    MembersAfter(cfg, s, a);
  }

  /** All actions of the run from this one on pass. */
  predicate PassesFrom(run: seq<Action>, from: nat, node: Name, m: Member) {
    forall j :: from <= j < |run| ==> Passes(run[j], node, m)
  }

  lemma {:induction false} RunRecords(cfg: Config, s: State, run: seq<Action>, node: Name) returns (i: nat)
    requires ValidConfig(cfg) && Inv(cfg, s) && Legal(cfg, s, run) && node in After(cfg, s, run).members
    ensures var m := After(cfg, s, run).members[node];
            || (i < |run| && Records(run[i], node, m) && PassesFrom(run, i + 1, node, m))
            || (i == |run| && node in s.members && s.members[node] == m && PassesFrom(run, 0, node, m))
    decreases |run|
  {
    hide Enabled, Apply, Records, Passes, Inv;
    if run == [] {
      i := 0;
    } else {
      StepKeeps(cfg, s, run[0]);
      ItIsBounded(cfg, s);
      var k := RunRecords(cfg, Apply(cfg, s, run[0]), run[1..], node);
      var m := After(cfg, s, run).members[node];
      if k < |run[1..]| {
        i := k + 1;
        forall j | i + 1 <= j < |run|
          ensures Passes(run[j], node, m)
        {
          assert run[j] == run[1..][j - 1];
        }
      } else {
        StepRecords(cfg, s, run[0], node);
        i := if Records(run[0], node, m) then 0 else |run|;
        forall j | 1 <= j < |run|
          ensures Passes(run[j], node, m)
        {
          assert run[j] == run[1..][j - 1];
        }
      }
    }
  }

  lemma NoMembersYet(now: int)
    ensures Start(now).members == map[]
  {
  }

  /** In every reachable state a member's record is one that it announced: generation, sequence and endpoint are those of
      that announcement and lastSeen is its time, and nothing newer of that node has come in since. */
  lemma RecordIsLatest(cfg: Config, now: int, run: seq<Action>, node: Name) returns (i: nat)
    requires ValidConfig(cfg) && Legal(cfg, Start(now), run) && node in After(cfg, Start(now), run).members
    ensures var m := After(cfg, Start(now), run).members[node];
            && i < |run| && run[i].Accept? && run[i].announcement.node == node
            && m.generation == run[i].announcement.generation && m.sequence == run[i].announcement.sequence
            && m.endpoint == run[i].announcement.endpoint && m.lastSeen == run[i].t
            && forall j :: i < j < |run| && run[j].Accept? && run[j].announcement.node == node ==>
                 !News(run[j].announcement, m)
  {
    hide Legal, After, Inv, News;
    StartHolds(cfg, now);
    NoMembersYet(now);
    i := RunRecords(cfg, Start(now), run, node);
    var m := After(cfg, Start(now), run).members[node];
    forall j | i < j < |run| && run[j].Accept? && run[j].announcement.node == node
      ensures !News(run[j].announcement, m)
    {
      assert Passes(run[j], node, m);
    }
  }

  /** So a member may be expired at a time if and only if its last new announcement is more than one lease old. */
  lemma ExpiredIffSilent(cfg: Config, now: int, run: seq<Action>, t: int, node: Name, victim: Name) returns (i: nat)
    requires ValidConfig(cfg) && Legal(cfg, Start(now), run) && node in After(cfg, Start(now), run).members
    requires var s := After(cfg, Start(now), run);
             s.now <= t && (Evicts(cfg, s, node) ==> Oldest(s.fences, victim))
    ensures i < |run| && run[i].Accept? && run[i].announcement.node == node
    ensures forall j :: i < j < |run| && run[j].Accept? && run[j].announcement.node == node ==>
              !News(run[j].announcement, After(cfg, Start(now), run).members[node])
    ensures Enabled(cfg, After(cfg, Start(now), run), Expire(t, node, victim)) <==> t > run[i].t + cfg.lease
  {
    hide Legal, After, Oldest;
    i := RecordIsLatest(cfg, now, run, node);
  }

  /** Every announcement of the node in the run is news, and no action comes more than one lease after the latest one. */
  predicate Punctual(run: seq<Action>, node: Name, m: Member, lease: int)
    decreases |run|
  {
    run == [] ||
    (run[0].t <= m.lastSeen + lease &&
     if !Announces(run[0], node) then Punctual(run[1..], node, m, lease)
     else var a := run[0].announcement;
          News(a, m) && Punctual(run[1..], node, Member(a.generation, a.sequence, a.endpoint, run[0].t), lease))
  }

  lemma StepRenews(cfg: Config, s: State, a: Action, node: Name)
    requires Bounded(cfg, s) && Enabled(cfg, s, a) && node in s.members && a.t <= s.members[node].lastSeen + cfg.lease
    requires Announces(a, node) ==> News(a.announcement, s.members[node])
    ensures node in Apply(cfg, s, a).members
    ensures if Announces(a, node) then Records(a, node, Apply(cfg, s, a).members[node])
            else Apply(cfg, s, a).members[node] == s.members[node]
  {
    hide Apply, Admits;
    MembersAfter(cfg, s, a);
  }

  lemma SameMembers(s: State, t: int)
    ensures ExpireFencesOf(s, t).members == s.members
  {
  }

  /** A member that keeps announcing itself within its lease is never expired, however the run goes on. */
  lemma {:induction false} AnnouncingKeepsMember(cfg: Config, s: State, run: seq<Action>, node: Name)
    requires ValidConfig(cfg) && Inv(cfg, s) && Legal(cfg, s, run) && node in s.members
    requires Punctual(run, node, s.members[node], cfg.lease)
    ensures Stays(cfg, s, run, node)
    decreases |run|
  {
    hide Enabled, Apply, Inv, News;
    if run != [] {
      StepKeeps(cfg, s, run[0]);
      ItIsBounded(cfg, s);
      StepRenews(cfg, s, run[0], node);
      AnnouncingKeepsMember(cfg, Apply(cfg, s, run[0]), run[1..], node);
    }
  }

  lemma ItIsBounded(cfg: Config, s: State)
    requires Inv(cfg, s)
    ensures Bounded(cfg, s)
  {
  }

  // ----- what becomes of an announcement -----

  /** Which counter an announcement of another node moves, in numbers: of a member, stale for an older generation,
      duplicate for one already heard; of others, stale and rejected by a live fence, dropped for want of room. Nothing
      else is counted, and it is admitted or renews the member in all other cases. */
  lemma AnnouncementFate(cfg: Config, s: State, a: Announcement, t: int)
    requires a.node != cfg.node
    ensures var u, v := s.stats, AcceptOf(cfg, s, a, t).stats;
            var known := a.node in s.members;
            var fenced := !known && a.node in s.fences && t < s.fences[a.node].expiresAt
                          && a.generation <= s.fences[a.node].generation;
            var older := known && a.generation < s.members[a.node].generation;
            var heard := known && a.generation == s.members[a.node].generation
                         && a.sequence <= s.members[a.node].sequence;
            var full := !known && !fenced && |s.members| >= cfg.maxMembers;
            && v.received == u.received + 1
            && v.stale == u.stale + (if older || fenced then 1 else 0) && v.rejections == u.rejections + (if fenced then 1 else 0)
            && v.duplicate == u.duplicate + (if heard then 1 else 0) && v.drops == u.drops + (if full then 1 else 0)
            && v.refreshed == u.refreshed + (if known && !older && !heard then 1 else 0)
            && v.inserted == u.inserted + (if !known && !fenced && !full then 1 else 0)
            && v.expired == u.expired && v.created == u.created && v.evictions == u.evictions
  {
  }
}
