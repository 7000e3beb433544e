// The browser pages of internal/fetch/renderer.go under every interleaving of renders: pooled, in use by
// one render, or closed.
module PagePool {
  import opened Sums
  import HostLimiter

  // A page and when it was created; recycling does not reset that time.
  datatype Page = Page(id: nat, acquired: int)

  // max_page_lifetime of 0 or less keeps pages for ever.
  datatype Config = Config(poolSize: int, perHostLimit: int, maxLifetime: int)

  // pooled is the pagePool channel, first in first out; inUse says which page a render has; hosts are the
  // host semaphores, whose callers are the renders; pages 0 .. created - 1 have been opened.
  datatype Renderer = Renderer(
    pooled: seq<Page>, inUse: map<nat, Page>, closed: set<nat>, created: nat, hosts: HostLimiter.Hosts)

  // A pool_size of 0 or less means 2.
  function Capacity(cfg: Config): (size: nat)
    ensures size > 0
  {
    if cfg.poolSize <= 0 then 2 else cfg.poolSize
  }

  function HostConfig(cfg: Config): HostLimiter.Config {
    HostLimiter.Config(cfg.perHostLimit, false)
  }

  // NewRenderer fills the pool.
  function Fresh(cfg: Config, now: int): Renderer {
    Renderer(seq(Capacity(cfg), i requires 0 <= i < Capacity(cfg) => Page(i, now)), map[], {}, Capacity(cfg),
             HostLimiter.NONE)
  }

  // Take and Recycle are the receive from the pool (or the opening of a page when it is empty) and
  // recyclePage, each one channel operation; Host is a step at the host semaphores.
  datatype Step = Host(step: HostLimiter.Step) | Take(r: nat, now: int) | Recycle(r: nat, now: int)

  // A render takes a page while it has its host's token and gives both back in reverse order.
  predicate Enabled(cfg: Config, s: Renderer, step: Step) {
    match step
    case Host(h) => HostLimiter.Enabled(HostConfig(cfg), s.hosts, h) && (h.Leave? ==> h.c !in s.inUse)
    case Take(r, _) => r in s.hosts.callers && s.hosts.callers[r].Admitted? && r !in s.inUse
    case Recycle(r, _) => r in s.inUse
  }

  // ----- The two channel operations -----

  function TakePage(s: Renderer, r: nat, now: int): Renderer {
    if s.pooled != [] then s.(pooled := s.pooled[1..], inUse := s.inUse[r := s.pooled[0]])
    else s.(inUse := s.inUse[r := Page(s.created, now)], created := s.created + 1)
  }

  predicate Retires(cfg: Config, p: Page, now: int) {
    cfg.maxLifetime > 0 && now - p.acquired > cfg.maxLifetime
  }

  function RecyclePage(cfg: Config, s: Renderer, r: nat, now: int): Renderer
    requires r in s.inUse
  {
    var p := s.inUse[r];
    var rest := s.(inUse := s.inUse - {r});
    if Retires(cfg, p, now) || |s.pooled| >= Capacity(cfg) then rest.(closed := s.closed + {p.id})
    else rest.(pooled := s.pooled + [p])
  }

  function Apply(cfg: Config, s: Renderer, step: Step): Renderer
    requires Enabled(cfg, s, step)
  {
    match step
    case Host(h) => s.(hosts := HostLimiter.Apply(HostConfig(cfg), s.hosts, h))
    case Take(r, now) => TakePage(s, r, now)
    case Recycle(r, now) => RecyclePage(cfg, s, r, now)
  }

  // The pool as Render and recyclePage change it.
  class Pool {
    const cfg: Config
    var pooled: seq<Page>
    var inUse: map<nat, Page>
    var closed: set<nat>
    var created: nat

    function View(hosts: HostLimiter.Hosts): Renderer
      reads this
    {
      Renderer(pooled, inUse, closed, created, hosts)
    }

    constructor (cfg: Config, now: int)
      ensures this.cfg == cfg && View(HostLimiter.NONE) == Fresh(cfg, now)
      ensures |pooled| == created == (if cfg.poolSize <= 0 then 2 else cfg.poolSize)
      ensures forall i :: 0 <= i < |pooled| ==> pooled[i] == Page(i, now)
    {
      this.cfg := cfg;
      inUse, closed, created := map[], {}, Capacity(cfg);
      pooled := [];
      new;
      for i := 0 to Capacity(cfg)
        invariant pooled == Fresh(cfg, now).pooled[..i]
        invariant inUse == map[] && closed == {} && created == Capacity(cfg)
      {
        pooled := pooled + [Page(i, now)];
      }
    }

    // The select at the start of Render.
    method Take(r: nat, now: int) returns (p: Page)
      requires r !in inUse
      modifies this
      ensures forall hosts: HostLimiter.Hosts :: View(hosts) == TakePage(old(View(hosts)), r, now)
      ensures inUse == old(inUse)[r := p] && closed == old(closed)
      ensures old(pooled) != [] ==> p == old(pooled)[0] && pooled == old(pooled)[1..] && created == old(created)
      ensures old(pooled) == [] ==> p == Page(old(created), now) && pooled == [] && created == old(created) + 1
    {
      if |pooled| > 0 {
        p := pooled[0];
        pooled := pooled[1..];
      } else {
        p := Page(created, now);
        created := created + 1;
      }
      inUse := inUse[r := p];
    }

    method Recycle(r: nat, now: int)
      requires r in inUse
      modifies this
      ensures forall hosts: HostLimiter.Hosts :: View(hosts) == RecyclePage(cfg, old(View(hosts)), r, now)
      ensures
        var p := old(inUse)[r];
        var tooOld := cfg.maxLifetime > 0 && now - p.acquired > cfg.maxLifetime;
        var room := |old(pooled)| < (if cfg.poolSize <= 0 then 2 else cfg.poolSize);
        && inUse == old(inUse) - {r} && created == old(created)
        && pooled == (if !tooOld && room then old(pooled) + [p] else old(pooled))
        && closed == (if !tooOld && room then old(closed) else old(closed) + {p.id})
    {
      var p := inUse[r];
      inUse := inUse - {r};
      if cfg.maxLifetime > 0 && now - p.acquired > cfg.maxLifetime {
        closed := closed + {p.id};
        return;
      }
      if |pooled| < Capacity(cfg) {
        pooled := pooled + [p];
      } else {
        closed := closed + {p.id};
      }
    }
  }

  // ----- Every page in one place -----

  predicate Pooled(s: Renderer, id: nat) {
    exists i :: 0 <= i < |s.pooled| && s.pooled[i].id == id
  }

  predicate Used(s: Renderer, id: nat) {
    exists r | r in s.inUse :: s.inUse[r].id == id
  }

  // Exactly one of the three holds of every page created, and none of any other.
  ghost predicate Placed(s: Renderer, id: nat) {
    && (id < s.created <==> Pooled(s, id) || Used(s, id) || id in s.closed)
    && !(Pooled(s, id) && Used(s, id)) && !(Pooled(s, id) && id in s.closed) && !(Used(s, id) && id in s.closed)
  }

  ghost predicate PagesSound(cfg: Config, s: Renderer) {
    && (forall id: nat :: Placed(s, id))
    && (forall i, k :: 0 <= i < k < |s.pooled| ==> s.pooled[i].id != s.pooled[k].id)
    && (forall r, q | r in s.inUse && q in s.inUse :: s.inUse[r].id == s.inUse[q].id ==> r == q)
    && |s.pooled| <= Capacity(cfg)
  }

  ghost predicate Inv(cfg: Config, s: Renderer) {
    && PagesSound(cfg, s) && HostLimiter.Inv(HostConfig(cfg), s.hosts)
    && (forall r :: r in s.inUse ==> r in s.hosts.callers && s.hosts.callers[r].Admitted?)
  }

  lemma TakeMoves(s: Renderer, r: nat, now: int, id: nat)
    requires r !in s.inUse
    ensures var s' := TakePage(s, r, now);
            && (Used(s', id) <==> Used(s, id) || id == s'.inUse[r].id)
            && (s.pooled == [] ==> !Pooled(s', id) && !Pooled(s, id))
            && (s.pooled != [] ==> (Pooled(s, id) <==> Pooled(s', id) || id == s.pooled[0].id))
  {
    var s' := TakePage(s, r, now);
    if q :| q in s.inUse && s.inUse[q].id == id {
      assert s'.inUse[q].id == id;
    }
    if s.pooled != [] {
      if i :| 0 <= i < |s.pooled| && s.pooled[i].id == id && i > 0 {
        assert s'.pooled[i - 1].id == id;
      }
      if i :| 0 <= i < |s'.pooled| && s'.pooled[i].id == id {
        assert s.pooled[i + 1].id == id;
      }
    }
  }

  lemma TakeKeepsPages(cfg: Config, s: Renderer, r: nat, now: int)
    requires PagesSound(cfg, s) && r !in s.inUse
    ensures PagesSound(cfg, TakePage(s, r, now))
  {
    var s' := TakePage(s, r, now);
    forall id: nat
      ensures Placed(s', id)
    {
      assert Placed(s, id);
      TakeMoves(s, r, now, id);
    }
    forall q | q in s.inUse
      ensures s.inUse[q].id != s'.inUse[r].id
    {
      assert Used(s, s.inUse[q].id) && Placed(s, s.inUse[q].id);
      if s.pooled != [] {
        assert Pooled(s, s.pooled[0].id);
      }
    }
  }

  lemma RecycleMoves(cfg: Config, s: Renderer, r: nat, now: int, id: nat)
    requires PagesSound(cfg, s) && r in s.inUse
    ensures var s' := RecyclePage(cfg, s, r, now);
            && (Used(s', id) <==> Used(s, id) && id != s.inUse[r].id)
            && (Pooled(s', id) <==> Pooled(s, id) || (id == s.inUse[r].id && s'.closed == s.closed))
  {
    var s' := RecyclePage(cfg, s, r, now);
    if q :| q in s.inUse && s.inUse[q].id == id && q != r {
      assert s'.inUse[q].id == id;
    }
    if i :| 0 <= i < |s.pooled| && s.pooled[i].id == id {
      assert s'.pooled[i].id == id;
    }
    if |s'.pooled| > |s.pooled| {
      assert s'.pooled[|s.pooled|].id == s.inUse[r].id;
    }
    assert Used(s, s.inUse[r].id) && Placed(s, s.inUse[r].id);
  }

  lemma RecycleKeepsPages(cfg: Config, s: Renderer, r: nat, now: int)
    requires PagesSound(cfg, s) && r in s.inUse
    ensures PagesSound(cfg, RecyclePage(cfg, s, r, now))
  {
    var s' := RecyclePage(cfg, s, r, now);
    assert Used(s, s.inUse[r].id) && Placed(s, s.inUse[r].id);
    forall id: nat
      ensures Placed(s', id)
    {
      assert Placed(s, id);
      RecycleMoves(cfg, s, r, now, id);
    }
    forall i | 0 <= i < |s.pooled|
      ensures s.pooled[i].id != s.inUse[r].id
    {
      assert Pooled(s, s.pooled[i].id);
    }
  }

  lemma StepKeepsInv(cfg: Config, s: Renderer, step: Step)
    requires Inv(cfg, s) && Enabled(cfg, s, step)
    ensures Inv(cfg, Apply(cfg, s, step))
  {
    match step
    case Host(h) =>
      HostLimiter.StepKeepsInv(HostConfig(cfg), s.hosts, h);
      assert forall id: nat :: Placed(s, id) ==> Placed(Apply(cfg, s, step), id);
    case Take(r, now) => TakeKeepsPages(cfg, s, r, now);
    case Recycle(r, now) => RecycleKeepsPages(cfg, s, r, now);
  }

  lemma FreshIsSound(cfg: Config, now: int)
    ensures Inv(cfg, Fresh(cfg, now))
  {
    var s := Fresh(cfg, now);
    forall id: nat
      ensures Placed(s, id)
    {
      if id < s.created {
        assert s.pooled[id].id == id;
      }
    }
  }

  ghost predicate Run(cfg: Config, states: seq<Renderer>, steps: seq<Step>, now: int) {
    && |states| == |steps| + 1 && states[0] == Fresh(cfg, now)
    && forall k :: 0 <= k < |steps| ==>
         Enabled(cfg, states[k], steps[k]) && states[k + 1] == Apply(cfg, states[k], steps[k])
  }

  // The renders that have a page for a host on channel ch.
  function Rendering(s: Renderer, ch: nat): set<nat> {
    set r | r in s.inUse && r in s.hosts.callers && HostLimiter.HasToken(s.hosts.callers[r])
            && s.hosts.callers[r].ch == ch
  }

  // PAGES. In every interleaving of renders each page ever opened is in exactly one place: in the pool,
  // with exactly one render, or closed; the pool stays within its capacity; and no host has more pages in
  // use than the per-host limit.
  lemma {:induction false} PagesHold(cfg: Config, states: seq<Renderer>, steps: seq<Step>, now: int)
    requires Run(cfg, states, steps, now)
    ensures Inv(cfg, states[|steps|])
    ensures forall ch :: ch in states[|steps|].hosts.tokens ==>
              |Rendering(states[|steps|], ch)| == 0 || |Rendering(states[|steps|], ch)| <= cfg.perHostLimit
    decreases |steps|
  {
    if steps == [] {
      FreshIsSound(cfg, now);
    } else {
      var n := |steps| - 1;
      PagesHold(cfg, states[..|steps|], steps[..n], now);
      StepKeepsInv(cfg, states[n], steps[n]);
    }
    var s := states[|steps|];
    forall ch | ch in s.hosts.tokens
      ensures |Rendering(s, ch)| == 0 || |Rendering(s, ch)| <= cfg.perHostLimit
    {
      SubsetSize(Rendering(s, ch), HostLimiter.Holders(s.hosts, ch));
    }
  }

  // A per-host limit of 0 lets no render in at all: the default of 2 that NewRenderer gives it reaches a
  // local copy of the configuration only.
  lemma NoLimitNoRenders(cfg: Config, states: seq<Renderer>, steps: seq<Step>, now: int)
    requires Run(cfg, states, steps, now) && cfg.perHostLimit <= 0
    ensures states[|steps|].inUse == map[]
  {
    PagesHold(cfg, states, steps, now);
    var s := states[|steps|];
    forall r | r in s.inUse
      ensures false
    {
      HostLimiter.ReleaseFindsToken(HostConfig(cfg), s.hosts, r);
    }
  }

  // Render 0 enters alone, gets the host's channel, sends its token and takes a page.
  lemma OneRenders(cfg: Config, now: int) returns (states: seq<Renderer>, steps: seq<Step>)
    requires cfg.perHostLimit > 0
    ensures Run(cfg, states, steps, now) && 0 in states[|steps|].inUse
  {
    var start := Fresh(cfg, now);
    var entered := Apply(cfg, start, Host(HostLimiter.Enter(0, "")));
    var ready := Apply(cfg, entered, Host(HostLimiter.GetChannel(0)));
    var sent := Apply(cfg, ready, Host(HostLimiter.Send(0)));
    var admitted := Apply(cfg, sent, Host(HostLimiter.Pass(0)));
    states := [start, entered, ready, sent, admitted, Apply(cfg, admitted, Take(0, now))];
    steps := [Host(HostLimiter.Enter(0, "")), Host(HostLimiter.GetChannel(0)), Host(HostLimiter.Send(0)),
              Host(HostLimiter.Pass(0)), Take(0, now)];
  }

  // Some run has a page in use.
  ghost predicate SomeoneRenders(cfg: Config, now: int) {
    exists states: seq<Renderer>, steps: seq<Step> ::
      Run(cfg, states, steps, now) && states[|steps|].inUse != map[]
  }

  // Pages are ever used exactly when the configured per-host limit is positive.
  lemma RendersWhen(cfg: Config, now: int)
    ensures SomeoneRenders(cfg, now) <==> cfg.perHostLimit > 0
  {
    if cfg.perHostLimit > 0 {
      var states, steps := OneRenders(cfg, now);
      assert states[|steps|].inUse != map[];
    } else if SomeoneRenders(cfg, now) {
      var states: seq<Renderer>, steps: seq<Step> :|
        Run(cfg, states, steps, now) && states[|steps|].inUse != map[];
      NoLimitNoRenders(cfg, states, steps, now);
    }
  }
}
