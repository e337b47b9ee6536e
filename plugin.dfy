/**
 * The plugin hook dispatcher (voudp/src/plugin.rs). A plugin may register an
 * `on_join`, `on_message` and `on_leave` hook; the server runs the hooks of
 * every plugin in registration order. A hook is a Lua function: here it is an
 * arbitrary function from its context to the sequence of context methods
 * ("verbs") it calls. The verbs are what the dispatcher can observe: `reply`
 * and `kick` queue a `PluginAction`, `cancel` sets the flag shared by one
 * dispatch, and the leave context's `broadcast` prints a line.
 */
module Plugin {
  import opened Wrappers
  import opened Bytes
  import opened Net

  /** What a hook asks the server to do, sent over the plugin channel. */
  datatype PluginAction =
    | Reply(to: string, msg: string)
    | ReplyByAddr(toAddr: SocketAddr, msg: string)
    | Broadcast(msg: string)
    | Kick(user: string, reason: Option<string>)

  /** A hook slot: none registered, a registry key that no longer resolves, or a callable hook. */
  datatype Slot<F> = Empty | Broken(err: string) | Bound(hook: F)

  datatype JoinContext = JoinContext(addr: SocketAddr, channelId: u32)
  datatype MessageContext = MessageContext(username: string, message: string)
  datatype LeaveContext = LeaveContext(username: string)

  /** The side-effecting methods of `JoinContext` (its getters only feed the hook). */
  datatype JoinVerb = JoinReply(msg: string) | JoinCancel
  /** The side-effecting methods of `MessageContext`. */
  datatype MessageVerb = MessageReply(msg: string) | MessageKick(reason: string) | MessageCancel | MessageBroadcast(msg: string)
  /** The one method of `LeaveContext`. */
  datatype LeaveVerb = LeaveBroadcast(msg: string)

  /** A loaded plugin: its name (from the `plugin` table) and its three hooks. */
  datatype Plugin = Plugin(
    name: string,
    onJoin: Slot<JoinContext -> seq<JoinVerb>>,
    onMessage: Slot<MessageContext -> seq<MessageVerb>>,
    onLeave: Slot<LeaveContext -> seq<LeaveVerb>>)

  /** What running some verbs does: whether one cancelled, the actions queued and the lines printed. */
  datatype Effect = Effect(cancels: bool, emits: seq<PluginAction>, printed: seq<string>)

  const NO_EFFECT := Effect(false, [], [])

  /** `JoinContext.reply` answers the joining address; `cancel` sets the flag. */
  function JoinVerbEffect(ctx: JoinContext, v: JoinVerb): (e: Effect)
    ensures e.printed == [] && (e.cancels <==> v == JoinCancel)
    ensures v.JoinReply? ==> e.emits == [ReplyByAddr(ctx.addr, v.msg)]
    ensures v.JoinCancel? ==> e.emits == []
  {
    match v
    case JoinReply(msg) => Effect(false, [ReplyByAddr(ctx.addr, msg)], [])
    case JoinCancel => Effect(true, [], [])
  }

  /**
   * `MessageContext.reply` answers the sender by name, `kick` kicks the sender
   * with the given reason, `cancel` sets the flag and `broadcast` does nothing.
   */
  function MessageVerbEffect(ctx: MessageContext, v: MessageVerb): (e: Effect)
    ensures e.printed == [] && (e.cancels <==> v == MessageCancel)
    ensures v.MessageReply? ==> e.emits == [Reply(ctx.username, v.msg)]
    ensures v.MessageKick? ==> e.emits == [Kick(ctx.username, Some(v.reason))]
    ensures v.MessageCancel? || v.MessageBroadcast? ==> e.emits == []
  {
    match v
    case MessageReply(msg) => Effect(false, [Reply(ctx.username, msg)], [])
    case MessageKick(reason) => Effect(false, [Kick(ctx.username, Some(reason))], [])
    case MessageCancel => Effect(true, [], [])
    case MessageBroadcast(_) => NO_EFFECT
  }

  /** `LeaveContext.broadcast` prints `[broadcast] {msg}` and queues nothing. */
  function LeaveVerbEffect(ctx: LeaveContext, v: LeaveVerb): (e: Effect)
    ensures !e.cancels && e.emits == [] && e.printed == ["[broadcast] " + v.msg]
  {
    Effect(false, [], ["[broadcast] " + v.msg])
  }

  /** The combined effect of one hook calling `verbs` in order. */
  function Run<C, V>(ctx: C, verbs: seq<V>, verb: (C, V) -> Effect): Effect {
    if verbs == [] then NO_EFFECT
    else
      var p := Run(ctx, verbs[..|verbs| - 1], verb);
      var e := verb(ctx, verbs[|verbs| - 1]);
      Effect(p.cancels || e.cancels, p.emits + e.emits, p.printed + e.printed)
  }

  /** A hook cancels exactly when one of its verbs does. */
  lemma {:induction false} RunCancelsIff<C, V>(ctx: C, verbs: seq<V>, verb: (C, V) -> Effect)
    ensures Run(ctx, verbs, verb).cancels <==> exists i :: 0 <= i < |verbs| && verb(ctx, verbs[i]).cancels
  {
    if verbs != [] {
      var init := verbs[..|verbs| - 1];
      RunCancelsIff(ctx, init, verb);
      if exists i :: 0 <= i < |init| && verb(ctx, init[i]).cancels {
        var i :| 0 <= i < |init| && verb(ctx, init[i]).cancels;
        assert verbs[i] == init[i];
      }
      if exists i :: 0 <= i < |verbs| && verb(ctx, verbs[i]).cancels {
        var i :| 0 <= i < |verbs| && verb(ctx, verbs[i]).cancels;
        if i < |init| {
          assert init[i] == verbs[i];
        }
      }
    }
  }

  /** The outcome of one dispatch: whether the event may proceed, the actions queued, the lines printed. */
  datatype Outcome = Outcome(allowed: bool, emitted: seq<PluginAction>, printed: seq<string>)

  /**
   * Runs the hooks that `slot` picks out of `plugins`, in order: a plugin
   * without a callable hook is skipped, and the first hook that cancels ends
   * the dispatch with `allowed` false; its own effects are kept.
   */
  function Dispatch<C, V>(plugins: seq<Plugin>, slot: Plugin -> Slot<C -> seq<V>>, ctx: C, verb: (C, V) -> Effect): Outcome {
    if plugins == [] then Outcome(true, [], [])
    else
      var s := slot(plugins[0]);
      if s.Bound? then
        var e := Run(ctx, s.hook(ctx), verb);
        if e.cancels then Outcome(false, e.emits, e.printed)
        else After(e.emits, e.printed, Dispatch(plugins[1..], slot, ctx, verb))
      else Dispatch(plugins[1..], slot, ctx, verb)
  }

  /** An outcome preceded by the actions and lines of the hooks already run. */
  function After(emitted: seq<PluginAction>, printed: seq<string>, d: Outcome): (r: Outcome)
    ensures r.allowed == d.allowed
  {
    Outcome(d.allowed, emitted + d.emitted, printed + d.printed)
  }

  lemma AfterAfter(e1: seq<PluginAction>, p1: seq<string>, e2: seq<PluginAction>, p2: seq<string>, d: Outcome)
    ensures After(e1, p1, After(e2, p2, d)) == After(e1 + e2, p1 + p2, d)
  {
    assert e1 + (e2 + d.emitted) == (e1 + e2) + d.emitted;
    assert p1 + (p2 + d.printed) == (p1 + p2) + d.printed;
  }

  /** One step of a dispatch over a suffix of the plugins. */
  lemma DispatchFrom<C, V>(plugins: seq<Plugin>, i: nat, slot: Plugin -> Slot<C -> seq<V>>, ctx: C, verb: (C, V) -> Effect)
    requires i < |plugins|
    ensures var s := slot(plugins[i]);
      Dispatch(plugins[i..], slot, ctx, verb) ==
        if s.Bound? then
          var e := Run(ctx, s.hook(ctx), verb);
          if e.cancels then Outcome(false, e.emits, e.printed)
          else After(e.emits, e.printed, Dispatch(plugins[i + 1..], slot, ctx, verb))
        else Dispatch(plugins[i + 1..], slot, ctx, verb)
  {
    assert plugins[i..][0] == plugins[i] && plugins[i..][1..] == plugins[i + 1..];
  }

  /** The hook of `p` that `slot` picks exists, resolves, and cancels. */
  predicate Cancels<C, V>(p: Plugin, slot: Plugin -> Slot<C -> seq<V>>, ctx: C, verb: (C, V) -> Effect) {
    slot(p).Bound? && Run(ctx, slot(p).hook(ctx), verb).cancels
  }

  /** A dispatch lets the event through exactly when no plugin's hook cancels. */
  lemma {:induction false} DispatchAllowedIff<C, V>(plugins: seq<Plugin>, slot: Plugin -> Slot<C -> seq<V>>, ctx: C, verb: (C, V) -> Effect)
    ensures Dispatch(plugins, slot, ctx, verb).allowed <==> forall i :: 0 <= i < |plugins| ==> !Cancels(plugins[i], slot, ctx, verb)
  {
    if plugins != [] {
      DispatchAllowedIff(plugins[1..], slot, ctx, verb);
      assert forall i :: 1 <= i < |plugins| ==> plugins[i] == plugins[1..][i - 1];
    }
  }

  /**
   * Dispatching over `ps + rest`: once `ps` has cancelled, `rest` is never
   * run; otherwise `rest` runs after `ps` and decides the verdict.
   */
  lemma {:induction false} DispatchAppend<C, V>(ps: seq<Plugin>, rest: seq<Plugin>, slot: Plugin -> Slot<C -> seq<V>>,
                                                ctx: C, verb: (C, V) -> Effect)
    ensures var d := Dispatch(ps, slot, ctx, verb);
      Dispatch(ps + rest, slot, ctx, verb) ==
        if d.allowed then After(d.emitted, d.printed, Dispatch(rest, slot, ctx, verb)) else d
  {
    if ps != [] {
      assert (ps + rest)[0] == ps[0] && (ps + rest)[1..] == ps[1..] + rest;
      DispatchAppend(ps[1..], rest, slot, ctx, verb);
      var s := slot(ps[0]);
      if s.Bound? {
        var e := Run(ctx, s.hook(ctx), verb);
        var d1 := Dispatch(ps[1..], slot, ctx, verb);
        if !e.cancels && d1.allowed {
          var r := Dispatch(rest, slot, ctx, verb);
          assert e.emits + (d1.emitted + r.emitted) == (e.emits + d1.emitted) + r.emitted;
          assert e.printed + (d1.printed + r.printed) == (e.printed + d1.printed) + r.printed;
        }
      }
    } else {
      assert ps + rest == rest;
    }
  }

  /** When every verb keeps some property of the actions it queues, so does every dispatch. */
  lemma {:induction false} DispatchEmitsOnly<C, V>(plugins: seq<Plugin>, slot: Plugin -> Slot<C -> seq<V>>, ctx: C,
                                                   verb: (C, V) -> Effect, ok: PluginAction -> bool)
    requires forall v: V :: forall a :: a in verb(ctx, v).emits ==> ok(a)
    ensures forall a :: a in Dispatch(plugins, slot, ctx, verb).emitted ==> ok(a)
  {
    if plugins != [] {
      DispatchEmitsOnly(plugins[1..], slot, ctx, verb, ok);
      if slot(plugins[0]).Bound? {
        RunEmitsOnly(ctx, slot(plugins[0]).hook(ctx), verb, ok);
      }
    }
  }

  lemma {:induction false} RunEmitsOnly<C, V>(ctx: C, verbs: seq<V>, verb: (C, V) -> Effect, ok: PluginAction -> bool)
    requires forall v: V :: forall a :: a in verb(ctx, v).emits ==> ok(a)
    ensures forall a :: a in Run(ctx, verbs, verb).emits ==> ok(a)
  {
    if verbs != [] {
      RunEmitsOnly(ctx, verbs[..|verbs| - 1], verb, ok);
    }
  }

  /** When no verb can cancel or queue anything, every plugin's hook runs, the event is let through and nothing is queued. */
  lemma {:induction false} DispatchQuiet<C, V>(plugins: seq<Plugin>, slot: Plugin -> Slot<C -> seq<V>>, ctx: C,
                                               verb: (C, V) -> Effect)
    requires forall v: V :: !verb(ctx, v).cancels && verb(ctx, v).emits == []
    ensures Dispatch(plugins, slot, ctx, verb).allowed && Dispatch(plugins, slot, ctx, verb).emitted == []
  {
    if plugins != [] {
      DispatchQuiet(plugins[1..], slot, ctx, verb);
      var s := slot(plugins[0]);
      if s.Bound? {
        RunQuiet(ctx, s.hook(ctx), verb);
      }
    }
  }

  lemma {:induction false} RunQuiet<C, V>(ctx: C, verbs: seq<V>, verb: (C, V) -> Effect)
    requires forall v: V :: !verb(ctx, v).cancels && verb(ctx, v).emits == []
    ensures !Run(ctx, verbs, verb).cancels && Run(ctx, verbs, verb).emits == []
  {
    if verbs != [] {
      RunQuiet(ctx, verbs[..|verbs| - 1], verb);
    }
  }

  function JoinSlot(p: Plugin): Slot<JoinContext -> seq<JoinVerb>> { p.onJoin }
  function MessageSlot(p: Plugin): Slot<MessageContext -> seq<MessageVerb>> { p.onMessage }
  function LeaveSlot(p: Plugin): Slot<LeaveContext -> seq<LeaveVerb>> { p.onLeave }

  /** A join dispatch only ever answers the joining address. */
  lemma JoinEmitsRepliesToJoiner(plugins: seq<Plugin>, addr: SocketAddr, channelId: u32)
    ensures forall a :: a in Dispatch(plugins, JoinSlot, JoinContext(addr, channelId), JoinVerbEffect).emitted ==>
      a.ReplyByAddr? && a.toAddr == addr
  {
    var ctx := JoinContext(addr, channelId);
    DispatchEmitsOnly(plugins, JoinSlot, ctx, JoinVerbEffect, (a: PluginAction) => a.ReplyByAddr? && a.toAddr == addr);
  }

  /** A message dispatch only ever replies to or kicks the sender, and never broadcasts. */
  lemma MessageEmitsToSender(plugins: seq<Plugin>, username: string, message: string)
    ensures forall a :: a in Dispatch(plugins, MessageSlot, MessageContext(username, message), MessageVerbEffect).emitted ==>
      (a.Reply? && a.to == username) || (a.Kick? && a.user == username && a.reason.Some?)
  {
    var ctx := MessageContext(username, message);
    DispatchEmitsOnly(plugins, MessageSlot, ctx, MessageVerbEffect,
      (a: PluginAction) => (a.Reply? && a.to == username) || (a.Kick? && a.user == username && a.reason.Some?));
  }

  /** A leave dispatch runs every `on_leave` hook and queues no action. */
  lemma LeaveRunsAll(plugins: seq<Plugin>, username: string)
    ensures var d := Dispatch(plugins, LeaveSlot, LeaveContext(username), LeaveVerbEffect);
      d.allowed && d.emitted == []
  {
    var ctx := LeaveContext(username);
    DispatchQuiet(plugins, LeaveSlot, ctx, LeaveVerbEffect);
  }

  /** `PluginManager`: the loaded plugins, the receiving end of the action channel and standard output. */
  class PluginManager {
    var plugins: seq<Plugin>
    var queue: seq<PluginAction>
    var stdout: seq<string>

    /** `PluginManager::new`: no plugins. */
    constructor ()
      ensures plugins == [] && queue == [] && stdout == []
    {
      plugins := [];
      queue := [];
      stdout := [];
    }

    /** `load_plugin`, given the result of loading the file: a loaded plugin is appended, a failure only logged. */
    method LoadPlugin(loaded: Result<Plugin, string>)
      modifies this`plugins
      ensures plugins == old(plugins) + (if loaded.Ok? then [loaded.value] else [])
    {
      if loaded.Ok? {
        plugins := plugins + [loaded.value];
      }
    }

    /**
     * One hook call: the hook performs `verbs` on a context sharing the
     * dispatch's `cancelled` flag, which can be set but never cleared.
     */
    method RunHook<C, V>(ctx: C, verbs: seq<V>, verb: (C, V) -> Effect, cancelled: bool) returns (flag: bool)
      modifies this`queue, this`stdout
      ensures flag == (cancelled || Run(ctx, verbs, verb).cancels)
      ensures queue == old(queue) + Run(ctx, verbs, verb).emits
      ensures stdout == old(stdout) + Run(ctx, verbs, verb).printed
    {
      flag := cancelled;
      for j := 0 to |verbs|
        invariant cancelled ==> flag
        invariant flag == (cancelled || Run(ctx, verbs[..j], verb).cancels)
        invariant queue == old(queue) + Run(ctx, verbs[..j], verb).emits
        invariant stdout == old(stdout) + Run(ctx, verbs[..j], verb).printed
      {
        assert verbs[..j + 1][..j] == verbs[..j];
        var e := verb(ctx, verbs[j]);
        if e.cancels {
          flag := true;
        }
        queue := queue + e.emits;
        stdout := stdout + e.printed;
      }
      assert verbs[..|verbs|] == verbs;
    }

    /**
     * The loop shared by the three dispatch functions: for each plugin in
     * order, look up the hook `slot` picks, skip the plugin when there is none
     * or it does not resolve, call it, and stop with false once the flag is set.
     */
    method DispatchHooks<C, V>(slot: Plugin -> Slot<C -> seq<V>>, ctx: C, verb: (C, V) -> Effect) returns (allowed: bool)
      modifies this`queue, this`stdout
      ensures var d := Dispatch(plugins, slot, ctx, verb);
        allowed == d.allowed && queue == old(queue) + d.emitted && stdout == old(stdout) + d.printed
    {
      var ps := plugins;
      var cancelled := false;
      ghost var emitted: seq<PluginAction> := [];
      ghost var printed: seq<string> := [];
      for i := 0 to |ps|
        invariant Dispatch(ps, slot, ctx, verb) == After(emitted, printed, Dispatch(ps[i..], slot, ctx, verb))
        invariant queue == old(queue) + emitted && stdout == old(stdout) + printed
        invariant !cancelled
      {
        DispatchFrom(ps, i, slot, ctx, verb);
        var s := slot(ps[i]);
        if s.Bound? {
          ghost var e := Run(ctx, s.hook(ctx), verb);
          cancelled := RunHook(ctx, s.hook(ctx), verb, cancelled);
          if cancelled {
            return false;
          }
          AfterAfter(emitted, printed, e.emits, e.printed, Dispatch(ps[i + 1..], slot, ctx, verb));
          assert old(queue) + emitted + e.emits == old(queue) + (emitted + e.emits);
          assert old(stdout) + printed + e.printed == old(stdout) + (printed + e.printed);
          emitted, printed := emitted + e.emits, printed + e.printed;
        }
      }
      return true;
    }

    /** `dispatch_join`: false as soon as an `on_join` hook cancels the join, true when none did. */
    method DispatchJoin(addr: SocketAddr, channelId: u32) returns (allowed: bool)
      modifies this`queue, this`stdout
      ensures var d := Dispatch(plugins, JoinSlot, JoinContext(addr, channelId), JoinVerbEffect);
        allowed == d.allowed && queue == old(queue) + d.emitted && stdout == old(stdout) + d.printed
    {
      allowed := DispatchHooks(JoinSlot, JoinContext(addr, channelId), JoinVerbEffect);
    }

    /** `dispatch_message`: the same in-order, stop-at-the-first-cancel contract for `on_message` hooks. */
    method DispatchMessage(username: string, message: string) returns (allowed: bool)
      modifies this`queue, this`stdout
      ensures var d := Dispatch(plugins, MessageSlot, MessageContext(username, message), MessageVerbEffect);
        allowed == d.allowed && queue == old(queue) + d.emitted && stdout == old(stdout) + d.printed
    {
      allowed := DispatchHooks(MessageSlot, MessageContext(username, message), MessageVerbEffect);
    }

    /**
     * `dispatch_leave`: every `on_leave` hook runs. The leave context has no
     * `cancel`, so the shared loop never stops early here.
     */
    method DispatchLeave(username: string)
      modifies this`queue, this`stdout
      ensures queue == old(queue)
      ensures stdout == old(stdout) + Dispatch(plugins, LeaveSlot, LeaveContext(username), LeaveVerbEffect).printed
    {
      LeaveRunsAll(plugins, username);
      var _ := DispatchHooks(LeaveSlot, LeaveContext(username), LeaveVerbEffect);
    }
  }
}
