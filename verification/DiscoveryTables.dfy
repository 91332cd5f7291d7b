/** The discovery tables as the service keeps them: an object updated in place, with loops over its tables in no particular
    order. */
module DiscoveryTables {
  import opened Membership

  lemma {:induction false} AfterExtend(cfg: Config, s: State, run: seq<Action>, a: Action)
    requires Legal(cfg, s, run) && Enabled(cfg, After(cfg, s, run), a)
    ensures Legal(cfg, s, run + [a])
    ensures After(cfg, s, run + [a]) == Apply(cfg, After(cfg, s, run), a)
    decreases |run|
  {
    hide Enabled, Apply;
    if run == [] {
      assert run + [a] == [a] && [a][1..] == [];
    } else {
      AfterExtend(cfg, Apply(cfg, s, run[0]), run[1..], a);
      assert (run + [a])[1..] == run[1..] + [a];
    }
  }

  /** Only expiries at one time. */
  predicate ExpiriesAt(run: seq<Action>, t: int) {
    forall i :: 0 <= i < |run| ==> run[i].Expire? && run[i].t == t
  }

  class Tables {
    const cfg: Config
    var members: map<Name, Member>
    var fences: map<Name, Fence>
    var stats: Stats
    ghost var now: int

    ghost function Now(): State
      reads this
    {
      State(now, members, fences, stats)
    }

    constructor (cfg: Config, ghost now: int)
      ensures this.cfg == cfg && Now() == Start(now)
    {
      this.cfg, this.now := cfg, now;
      members, fences, stats := map[], map[], Stats(0, 0, 0, 0, 0, 0, 0, 0, 0, 0, 0, 0);
    }

    method ExpireGenerationFences(t: int)
      modifies this`fences, this`stats
      ensures Now() == ExpireFencesOf(old(Now()), t)
    {
      var left := fences.Keys;
      while left != {}
        invariant left <= fences.Keys <= old(fences).Keys
        invariant forall n :: n in fences ==> fences[n] == old(fences)[n]
        invariant forall n :: n in old(fences) ==> (n in fences <==> n in left || t < old(fences)[n].expiresAt)
        invariant |fences| <= |old(fences)|
        invariant stats == old(stats).(fencesExpired := old(stats).fencesExpired + (|old(fences)| - |fences|))
        decreases |left|
      {
        var n :| n in left;
        left := left - {n};
        if t >= fences[n].expiresAt {
          Removed(fences, n);
          fences := fences - {n};
          stats := stats.(fencesExpired := stats.fencesExpired + 1);
        }
      }
      assert fences == ExpireFencesOf(old(Now()), t).fences;
    }

    /** std::min_element over the fences by their time of expiry. */
    method FindOldest() returns (victim: Name)
      requires fences != map[]
      ensures Oldest(fences, victim)
    {
      var left := fences.Keys;
      victim :| victim in left;
      while left != {}
        invariant left <= fences.Keys && victim in fences
        invariant forall n :: n in fences && n !in left ==> fences[victim].expiresAt <= fences[n].expiresAt
        decreases |left|
      {
        var n :| n in left;
        left := left - {n};
        if fences[n].expiresAt < fences[victim].expiresAt {
          victim := n;
        }
      }
    }

    method Remember(node: Name, m: Member, t: int) returns (ghost victim: Name)
      modifies this`fences, this`stats
      ensures Evicts(cfg, old(Now()), node) ==> Oldest(old(fences), victim)
      ensures Now() == RememberOf(cfg, old(Now()), node, m, t, victim)
    {
      victim := [];
      if node in fences {
        var g := if fences[node].generation < m.generation then m.generation else fences[node].generation;
        fences := fences[node := Fence(g, t + cfg.fenceTimeout)];
        return;
      }
      if |fences| >= cfg.maxFences && fences != map[] {
        var oldest := FindOldest();
        victim := oldest;
        fences := fences - {oldest};
        stats := stats.(evictions := stats.evictions + 1);
      }
      fences := fences[node := Fence(m.generation, t + cfg.fenceTimeout)];
      stats := stats.(created := stats.created + 1);
    }

    method Admit(a: Announcement, t: int)
      modifies this`members, this`fences, this`stats
      ensures Now() == AdmitOf(cfg, old(Now()), a, t)
    {
      if a.node in fences && a.generation <= fences[a.node].generation {
        stats := stats.(stale := stats.stale + 1, rejections := stats.rejections + 1);
        return;
      }
      if |members| >= cfg.maxMembers {
        stats := stats.(drops := stats.drops + 1);
        return;
      }
      members := members[a.node := Member(a.generation, a.sequence, a.endpoint, t)];
      stats := stats.(inserted := stats.inserted + 1, lifted := stats.lifted + if a.node in fences then 1 else 0);
      fences := fences - {a.node};
    }

    method Refresh(a: Announcement, t: int)
      requires a.node in members
      modifies this`members, this`stats
      ensures Now() == RefreshOf(old(Now()), a, t)
    {
      var m := members[a.node];
      if a.generation < m.generation {
        stats := stats.(stale := stats.stale + 1);
        return;
      }
      if a.generation == m.generation && a.sequence <= m.sequence {
        stats := stats.(duplicate := stats.duplicate + 1);
        return;
      }
      members := members[a.node := Member(a.generation, a.sequence, a.endpoint, t)];
      stats := stats.(refreshed := stats.refreshed + 1);
    }

    method Accept(a: Announcement, t: int)
      modifies this
      ensures Now() == AcceptOf(cfg, old(Now()), a, t).(now := t)
    {
      hide ExpireFencesOf, AdmitOf, RefreshOf;
      if a.node != cfg.node {
        stats := stats.(received := stats.received + 1);
        ExpireGenerationFences(t);
        if a.node in members {
          Refresh(a, t);
        } else {
          Admit(a, t);
        }
      }
      now := t;
    }

    /** ExpireMembers is a run of single expiries after the fences have been seen to, in whatever order the table yields
        them; it leaves exactly the members whose lease is not over. */
    method ExpireMembers(t: int) returns (ghost run: seq<Action>)
      requires now <= t
      modifies this
      ensures Legal(cfg, ExpireFencesOf(old(Now()), t).(now := t), run) && ExpiriesAt(run, t)
      ensures Now() == After(cfg, ExpireFencesOf(old(Now()), t).(now := t), run)
      ensures forall n :: n in members <==> n in old(members) && !Overdue(cfg, old(members)[n], t)
      ensures forall n :: n in members ==> members[n] == old(members)[n]
    {
      hide ExpireFencesOf, Legal, After, RememberOf;
      run := [];
      ExpireGenerationFences(t);
      now := t;
      ghost var start := Now();
      assert Legal(cfg, start, []) && After(cfg, start, []) == start by { NoSteps(cfg, start); }
      var left := members.Keys;
      while left != {}
        invariant left <= members.Keys && now == t
        invariant Legal(cfg, start, run) && ExpiriesAt(run, t) && Now() == After(cfg, start, run)
        invariant forall n :: n in members <==> n in old(members) && (n in left || !Overdue(cfg, old(members)[n], t))
        invariant forall n :: n in members ==> members[n] == old(members)[n]
        decreases |left|
      {
        var n :| n in left;
        left := left - {n};
        if t - members[n].lastSeen > cfg.lease {
          ghost var was := Now();
          ghost var victim := Remember(n, members[n], t);
          members := members - {n};
          stats := stats.(expired := stats.expired + 1);
          AfterExtend(cfg, start, run, Expire(t, n, victim));
          run := run + [Expire(t, n, victim)];
        }
      }
    }
  }

  lemma NoSteps(cfg: Config, s: State)
    ensures Legal(cfg, s, []) && After(cfg, s, []) == s
  {
  }
}
