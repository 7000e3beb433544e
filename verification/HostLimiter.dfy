// Per-host semaphores under every interleaving: the host limiter of internal/worker/limiter.go and the
// host semaphores of internal/fetch/renderer.go. Each step is one critical section or one channel
// operation of one caller.
module HostLimiter {
  // How far a caller has come: it has a host, it has the host's channel, it has sent its token and is in
  // the rate wait, it has been let in. Free callers are let in without a token.
  datatype Caller =
    | Entered(host: string)
    | Ready(host: string, ch: nat)
    | Waiting(host: string, ch: nat)
    | Admitted(host: string, ch: nat)
    | Free(host: string)

  // The limiter finds the channel to release by its host; the renderer has kept the channel.
  datatype Config = Config(limit: int, byHost: bool)

  // channels is the map filled under the mutex, tokens the number of tokens in each channel's buffer.
  datatype Hosts = Hosts(channels: map<string, nat>, tokens: map<nat, nat>, next: nat, callers: map<nat, Caller>)

  const NONE := Hosts(map[], map[], 0, map[])

  predicate HasChannel(c: Caller) {
    !c.Entered? && !c.Free?
  }

  // Between send and release, the rate wait included.
  predicate HasToken(c: Caller) {
    c.Waiting? || c.Admitted?
  }

  function HostName(host: string): string {
    if host == "" then "default" else host
  }

  // Only the blank host shares its name, with the one called default.
  lemma HostNamesDiffer(a: string, b: string)
    ensures HostName(a) == HostName(b) <==> a == b || (a in ["", "default"] && b in ["", "default"])
  {
  }

  // ----- The two critical sections -----

  // getConc, and the locked part of acquireHost
  function WithChannel(h: Hosts, host: string): Hosts {
    if host in h.channels then h
    else h.(channels := h.channels[host := h.next], tokens := h.tokens[h.next := 0], next := h.next + 1)
  }

  // A receive that does not block: the default branch leaves an empty channel alone.
  function Received(h: Hosts, ch: nat): Hosts {
    if ch in h.tokens && h.tokens[ch] > 0 then h.(tokens := h.tokens[ch := h.tokens[ch] - 1]) else h
  }

  // releaseConc
  function ReleaseConc(h: Hosts, host: string): Hosts {
    if host in h.channels then Received(h, h.channels[host]) else h
  }

  class Limiter {
    const maxConc: int
    var channels: map<string, nat>
    var tokens: map<nat, nat>
    var next: nat

    constructor (maxConc: int)
      ensures this.maxConc == maxConc && View(map[]) == NONE
    {
      this.maxConc := maxConc;
      channels, tokens, next := map[], map[], 0;
    }

    function View(callers: map<nat, Caller>): Hosts
      reads this
    {
      Hosts(channels, tokens, next, callers)
    }

    method GetConc(host: string) returns (ch: nat)
      modifies this
      ensures forall callers: map<nat, Caller> :: View(callers) == WithChannel(old(View(callers)), host)
      ensures host in channels && ch == channels[host]
      ensures host in old(channels) ==> channels == old(channels) && tokens == old(tokens) && next == old(next)
      ensures host !in old(channels) ==>
                channels == old(channels)[host := old(next)] && tokens == old(tokens)[old(next) := 0]
                && next == old(next) + 1
    {
      if host !in channels {
        tokens := tokens[next := 0];
        channels := channels[host := next];
        next := next + 1;
      }
      ch := channels[host];
    }

    // received tells which branch of the select ran.
    method Release(host: string) returns (received: bool)
      modifies this
      ensures forall callers: map<nat, Caller> :: View(callers) == ReleaseConc(old(View(callers)), host)
      ensures received <==> host in channels && channels[host] in old(tokens) && old(tokens)[channels[host]] > 0
      ensures channels == old(channels) && next == old(next)
      ensures tokens == if received then old(tokens)[channels[host] := old(tokens)[channels[host]] - 1] else old(tokens)
    {
      received := false;
      if host in channels {
        var ch := channels[host];
        if ch in tokens && tokens[ch] > 0 {
          tokens := tokens[ch := tokens[ch] - 1];
          received := true;
        }
      }
    }
  }

  // ----- The interleaving -----

  datatype Step =
    | Enter(c: nat, host: string)
    | Bypass(c: nat)
    | GetChannel(c: nat)
    | Send(c: nat)
    | GiveUp(c: nat)
    | Pass(c: nat)
    | Leave(c: nat)

  // May caller c take the step? A send waits for room; a channel cannot be made with a negative size.
  predicate Enabled(cfg: Config, h: Hosts, step: Step) {
    match step
    case Enter(c, _) => c !in h.callers
    case Bypass(c) => c in h.callers && h.callers[c].Entered? && cfg.byHost && cfg.limit <= 0
    case GetChannel(c) =>
      c in h.callers && h.callers[c].Entered? && (if cfg.byHost then cfg.limit > 0 else cfg.limit >= 0)
    case Send(c) =>
      c in h.callers && h.callers[c].Ready? && h.callers[c].ch in h.tokens && h.tokens[h.callers[c].ch] < cfg.limit
    case GiveUp(c) => c in h.callers && h.callers[c].Ready?
    case Pass(c) => c in h.callers && h.callers[c].Waiting?
    case Leave(c) => c in h.callers && (HasToken(h.callers[c]) || h.callers[c].Free?)
  }

  // Leave stands for the release function and for the release of a caller cancelled in the rate wait.
  function Apply(cfg: Config, h: Hosts, step: Step): Hosts
    requires Enabled(cfg, h, step)
  {
    match step
    case Enter(c, host) => h.(callers := h.callers[c := Entered(HostName(host))])
    case Bypass(c) => h.(callers := h.callers[c := Free(h.callers[c].host)])
    case GetChannel(c) =>
      var host := h.callers[c].host;
      var h' := WithChannel(h, host);
      h'.(callers := h.callers[c := Ready(host, h'.channels[host])])
    case Send(c) =>
      var w := h.callers[c];
      h.(tokens := h.tokens[w.ch := h.tokens[w.ch] + 1], callers := h.callers[c := Waiting(w.host, w.ch)])
    case GiveUp(c) => h.(callers := h.callers - {c})
    case Pass(c) => h.(callers := h.callers[c := Admitted(h.callers[c].host, h.callers[c].ch)])
    case Leave(c) =>
      var w := h.callers[c];
      var h' := if w.Free? then h else if cfg.byHost then ReleaseConc(h, w.host) else Received(h, w.ch);
      h'.(callers := h.callers - {c})
  }

  // The callers whose tokens are in channel ch.
  function Holders(h: Hosts, ch: nat): set<nat> {
    set c | c in h.callers && HasToken(h.callers[c]) && h.callers[c].ch == ch
  }

  ghost predicate ChannelsSound(h: Hosts) {
    && (forall ch :: ch in h.tokens ==> ch < h.next)
    && (forall host :: host in h.channels ==> h.channels[host] in h.tokens)
    && (forall a, b | a in h.channels && b in h.channels :: h.channels[a] == h.channels[b] ==> a == b)
  }

  // A caller's channel is its host's one and only.
  ghost predicate CallersSound(h: Hosts) {
    forall c :: c in h.callers && HasChannel(h.callers[c]) ==>
      h.callers[c].host in h.channels && h.channels[h.callers[c].host] == h.callers[c].ch
  }

  ghost predicate TokensCount(cfg: Config, h: Hosts) {
    forall ch :: ch in h.tokens ==> h.tokens[ch] == |Holders(h, ch)| && (h.tokens[ch] == 0 || h.tokens[ch] <= cfg.limit)
  }

  ghost predicate Inv(cfg: Config, h: Hosts) {
    ChannelsSound(h) && CallersSound(h) && TokensCount(cfg, h)
  }

  // How the holders of a channel change.
  lemma HoldersMove(cfg: Config, h: Hosts, step: Step, ch: nat)
    requires Inv(cfg, h) && Enabled(cfg, h, step)
    ensures
      var h' := Apply(cfg, h, step);
      Holders(h', ch) ==
      if step.Send? && h.callers[step.c].ch == ch then Holders(h, ch) + {step.c}
      else if step.Leave? && HasToken(h.callers[step.c]) && h.callers[step.c].ch == ch then Holders(h, ch) - {step.c}
      else Holders(h, ch)
  {
  }

  // A caller that releases finds its token: the default branch of the receive never runs.
  lemma ReleaseFindsToken(cfg: Config, h: Hosts, c: nat)
    requires Inv(cfg, h) && c in h.callers && HasToken(h.callers[c])
    ensures h.callers[c].host in h.channels && h.channels[h.callers[c].host] == h.callers[c].ch
    ensures h.callers[c].ch in h.tokens && h.tokens[h.callers[c].ch] > 0
  {
    assert c in Holders(h, h.callers[c].ch);
  }

  lemma StepKeepsTokens(cfg: Config, h: Hosts, step: Step)
    requires Inv(cfg, h) && Enabled(cfg, h, step)
    ensures TokensCount(cfg, Apply(cfg, h, step))
  {
    var h' := Apply(cfg, h, step);
    forall ch | ch in h'.tokens
      ensures h'.tokens[ch] == |Holders(h', ch)| && (h'.tokens[ch] == 0 || h'.tokens[ch] <= cfg.limit)
    {
      HoldersMove(cfg, h, step, ch);
      TokensMove(cfg, h, step, ch);
      if ch !in h.tokens {
        assert Holders(h, ch) == {};
      }
    }
  }

  // How the tokens of a channel change; a new channel has none.
  lemma TokensMove(cfg: Config, h: Hosts, step: Step, ch: nat)
    requires Inv(cfg, h) && Enabled(cfg, h, step) && ch in Apply(cfg, h, step).tokens
    ensures
      var before: int := if ch in h.tokens then h.tokens[ch] else 0;
      Apply(cfg, h, step).tokens[ch] ==
      if step.Send? && h.callers[step.c].ch == ch then before + 1
      else if step.Leave? && HasToken(h.callers[step.c]) && h.callers[step.c].ch == ch then before - 1
      else before
  {
    if step.Leave? && HasToken(h.callers[step.c]) {
      ReleaseFindsToken(cfg, h, step.c);
    }
  }

  lemma StepKeepsInv(cfg: Config, h: Hosts, step: Step)
    requires Inv(cfg, h) && Enabled(cfg, h, step)
    ensures Inv(cfg, Apply(cfg, h, step))
    ensures forall host :: host in h.channels ==>
              host in Apply(cfg, h, step).channels && Apply(cfg, h, step).channels[host] == h.channels[host]
  {
    StepKeepsTokens(cfg, h, step);
    if step.Leave? && HasToken(h.callers[step.c]) {
      ReleaseFindsToken(cfg, h, step.c);
    }
  }

  ghost predicate Run(cfg: Config, states: seq<Hosts>, steps: seq<Step>) {
    && |states| == |steps| + 1 && states[0] == NONE
    && forall k :: 0 <= k < |steps| ==>
         Enabled(cfg, states[k], steps[k]) && states[k + 1] == Apply(cfg, states[k], steps[k])
  }

  // SEMAPHORES. In every interleaving each channel holds exactly as many tokens as there are callers
  // between send and release, never more than the limit; a host keeps the channel it was first given; and a
  // caller about to release finds its host's channel with a token in it.
  lemma {:induction false} SemaphoresHold(cfg: Config, states: seq<Hosts>, steps: seq<Step>, k: nat)
    requires Run(cfg, states, steps) && k <= |steps|
    ensures Inv(cfg, states[|steps|])
    ensures forall host :: host in states[k].channels ==>
              host in states[|steps|].channels && states[|steps|].channels[host] == states[k].channels[host]
    ensures forall c :: c in states[|steps|].callers && HasToken(states[|steps|].callers[c]) ==>
              var h := states[|steps|];
              h.channels[h.callers[c].host] == h.callers[c].ch && h.tokens[h.callers[c].ch] > 0
    decreases |steps|
  {
    var last := states[|steps|];
    if steps == [] {
    } else {
      var n := |steps| - 1;
      SemaphoresHold(cfg, states[..|steps|], steps[..n], if k < |steps| then k else n);
      StepKeepsInv(cfg, states[n], steps[n]);
    }
    forall c | c in last.callers && HasToken(last.callers[c])
      ensures last.channels[last.callers[c].host] == last.callers[c].ch && last.tokens[last.callers[c].ch] > 0
    {
      ReleaseFindsToken(cfg, last, c);
    }
  }
}
