/**
 * The injection shim (inject/spy.c): its process-wide state, the DevTools
 * enforcer, the webview registry, the widget-tree walk, the idle poller, the
 * once-only installation shared by the entry-point hooks, and the
 * Ctrl+Shift+I handler. GTK, WebKit, GLib and dlsym are the `Host`.
 */
module Spy {
  import opened Wrappers
  import opened Host
  import opened Registry

  const MAX_RETRIES: int := 200

  /** GDK_SHIFT_MASK (1 << 0) and GDK_CONTROL_MASK (1 << 2). */
  const SHIFT_MASK: bv32 := 1
  const CONTROL_MASK: bv32 := 4
  /** GDK_KEY_I and GDK_KEY_i. */
  const KEY_I: bv32 := 0x49
  const KEY_LOWER_I: bv32 := 0x69

  /** `env && strcmp(env, "1") == 0`. */
  function ParseAutoOpen(env: Option<string>): (r: bool)
    ensures r <==> env == Some("1")
  {
    if env.Some? && |env.value| == 1 && env.value[0] == '1' then
      assert env.value == [env.value[0]];
      true
    else false
  }

  /** The Ctrl+Shift+I test of `on_key_press`: both modifier bits set, whatever
      other modifiers are held, and the key is I in either case. */
  function ChordMatches(state: bv32, keyval: bv32): bool
  {
    state & (CONTROL_MASK | SHIFT_MASK) == (CONTROL_MASK | SHIFT_MASK)
    && (keyval == KEY_I || keyval == KEY_LOWER_I)
  }

  /** The chord matches iff the Control bit and the Shift bit are each set,
      any other modifier bits notwithstanding, and the key is I or i. */
  lemma ChordMatchesIff(state: bv32, keyval: bv32)
    ensures ChordMatches(state, keyval) <==>
      state & CONTROL_MASK != 0 && state & SHIFT_MASK != 0 && (keyval == KEY_I || keyval == KEY_LOWER_I)
  {
  }

  /** The request that toggles one inspector. */
  function Toggle(view: Ptr, attached: bool): HostCall
  {
    if attached then InspectorClose(view) else InspectorShow(view)
  }

  function ToggleOne(v: int, inspectors: map<int, bool>): seq<HostCall>
  {
    if v == NULL || v !in inspectors then [] else [Toggle(v, inspectors[v])]
  }

  /** The inspector requests of one chord press, registry entry by entry. */
  function ToggleCalls(views: seq<int>, inspectors: map<int, bool>): seq<HostCall>
  {
    if views == [] then []
    else ToggleCalls(views[..|views| - 1], inspectors) + ToggleOne(views[|views| - 1], inspectors)
  }

  /** Every request of a chord press closes an attached inspector or shows a
      detached one, of a tracked view that has an inspector; at most one per entry. */
  lemma {:induction false} ToggleCallsTargets(views: seq<int>, inspectors: map<int, bool>)
    ensures |ToggleCalls(views, inspectors)| <= |views|
    ensures forall c | c in ToggleCalls(views, inspectors) ::
      && (c.InspectorShow? || c.InspectorClose?)
      && c.view in views && c.view in inspectors
      && (c.InspectorClose? <==> inspectors[c.view])
    decreases |views|
  {
    if views != [] {
      ToggleCallsTargets(views[..|views| - 1], inspectors);
    }
  }

  /** Over a registry without duplicates, a chord press toggles every tracked
      view that has an inspector exactly once, and no other view. */
  lemma {:induction false} ToggleEachViewOnce(views: seq<int>, inspectors: map<int, bool>, v: Ptr)
    requires NoDup(views)
    ensures v in views && v in inspectors ==>
      && Occurrences(ToggleCalls(views, inspectors), Toggle(v, inspectors[v])) == 1
      && Occurrences(ToggleCalls(views, inspectors), Toggle(v, !inspectors[v])) == 0
    ensures !(v in views && v in inspectors) ==>
      && Occurrences(ToggleCalls(views, inspectors), InspectorShow(v)) == 0
      && Occurrences(ToggleCalls(views, inspectors), InspectorClose(v)) == 0
    decreases |views|
  {
    if views != [] {
      var n := |views| - 1;
      var rest := views[..n];
      assert NoDup(rest) by {
        forall i, j | 0 <= i < j < |rest| ensures rest[i] != rest[j] {
          assert rest[i] == views[i] && rest[j] == views[j];
        }
      }
      ToggleEachViewOnce(rest, inspectors, v);
      var last := ToggleOne(views[n], inspectors);
      OccurrencesAppend(ToggleCalls(rest, inspectors), last, InspectorShow(v));
      OccurrencesAppend(ToggleCalls(rest, inspectors), last, InspectorClose(v));
      if last != [] {
        OccurrencesOne(last[0], InspectorShow(v));
        OccurrencesOne(last[0], InspectorClose(v));
      }
      assert views == rest + [views[n]];
      if views[n] == v {
        assert v !in rest by {
          forall k | 0 <= k < |rest| ensures rest[k] != v {
            assert rest[k] == views[k];
          }
        }
      }
    }
  }

  /** The part of the shim's state one walk changes: the registry, whether the
      real setter is resolved, and the calls issued so far. */
  datatype Walk = Walk(views: seq<int>, setterResolved: bool, trace: seq<HostCall>)

  /** The calls `enable_devtools_on_webview(v)` issues against registry `reg`,
      where `resolved` says whether the real setter is known after its lookup. */
  function OfferCalls(reg: seq<int>, resolved: bool, v: Ptr, autoOpen: bool, h: Host): seq<HostCall>
  {
    var enable := if v in h.settings && resolved then [RealSetDevExtras(h.settings[v], true)] else [];
    var duplicate := |reg| < MAX_WEBVIEWS && v in reg;
    var show := if !duplicate && autoOpen && v in h.inspectors then [InspectorShow(v)] else [];
    enable + show
  }

  /** One offer forces developer extras on for the view's own settings object,
      first, exactly when it has one and the setter is known, and asks for the
      inspector exactly when auto-open is on, the view has one, and the view
      was not already tracked in a registry with room; it makes no other call. */
  lemma OfferCallsShape(reg: seq<int>, resolved: bool, v: Ptr, autoOpen: bool, h: Host)
    ensures forall c | c in OfferCalls(reg, resolved, v, autoOpen, h) ::
      (c.RealSetDevExtras? && c.enabled) || c == InspectorShow(v)
    ensures (v in h.settings && resolved) <==>
      (OfferCalls(reg, resolved, v, autoOpen, h) != [] && OfferCalls(reg, resolved, v, autoOpen, h)[0].RealSetDevExtras?)
    ensures OfferCalls(reg, resolved, v, autoOpen, h) != [] && OfferCalls(reg, resolved, v, autoOpen, h)[0].RealSetDevExtras? ==>
      v in h.settings && OfferCalls(reg, resolved, v, autoOpen, h)[0].settings == h.settings[v]
    ensures InspectorShow(v) in OfferCalls(reg, resolved, v, autoOpen, h) <==>
      autoOpen && v in h.inspectors && (|reg| >= MAX_WEBVIEWS || v !in reg)
  {
  }

  /** `enable_devtools_on_webview(v)` as a transition. The real setter is looked
      up only when the view has a settings object. */
  function Offer(w: Walk, v: Ptr, autoOpen: bool, h: Host): Walk
  {
    var resolved := w.setterResolved || (v in h.settings && SetDevExtrasSym in h.symbols);
    Walk(Insert(w.views, v), resolved, w.trace + OfferCalls(w.views, resolved, v, autoOpen, h))
  }

  /** Offers in sequence, as a walk makes them. */
  function OfferAll(w: Walk, vs: seq<Ptr>, autoOpen: bool, h: Host): Walk
  {
    if vs == [] then w
    else Offer(OfferAll(w, vs[..|vs| - 1], autoOpen, h), vs[|vs| - 1], autoOpen, h)
  }

  /** A walk fills the registry as `InsertAll` does, keeps the calls made
      before it, and never forgets a resolved setter. */
  lemma {:induction false} OfferAllEffects(w: Walk, vs: seq<Ptr>, autoOpen: bool, h: Host)
    ensures OfferAll(w, vs, autoOpen, h).views == InsertAll(w.views, vs)
    ensures w.trace <= OfferAll(w, vs, autoOpen, h).trace
    ensures w.setterResolved ==> OfferAll(w, vs, autoOpen, h).setterResolved
    decreases |vs|
  {
    if vs != [] {
      OfferAllEffects(w, vs[..|vs| - 1], autoOpen, h);
    }
  }

  /** A call a walk over `vs` may add: a forced-on setter call, or an
      auto-open request for one of the offered views. */
  predicate WalkCall(c: HostCall, autoOpen: bool, vs: seq<Ptr>)
  {
    (c.RealSetDevExtras? && c.enabled) || (c.InspectorShow? && autoOpen && c.view in vs)
  }

  /** One offer adds only a forced-on setter call and an auto-open request
      for the offered view. */
  lemma OfferNewCalls(w: Walk, v: Ptr, autoOpen: bool, h: Host)
    ensures w.trace <= Offer(w, v, autoOpen, h).trace
    ensures forall k | |w.trace| <= k < |Offer(w, v, autoOpen, h).trace| ::
      WalkCall(Offer(w, v, autoOpen, h).trace[k], autoOpen, [v])
  {
    var r := Offer(w, v, autoOpen, h);
    var calls := OfferCalls(w.views, r.setterResolved, v, autoOpen, h);
    OfferCallsShape(w.views, r.setterResolved, v, autoOpen, h);
    forall k | |w.trace| <= k < |r.trace| ensures WalkCall(r.trace[k], autoOpen, [v]) {
      assert r.trace[k] == calls[k - |w.trace|];
    }
  }

  /** The only calls a walk adds are forced-on setter calls and auto-open
      requests for offered views. */
  lemma {:induction false} OfferAllNewCalls(w: Walk, vs: seq<Ptr>, autoOpen: bool, h: Host)
    ensures |w.trace| <= |OfferAll(w, vs, autoOpen, h).trace|
    ensures forall k | |w.trace| <= k < |OfferAll(w, vs, autoOpen, h).trace| ::
      WalkCall(OfferAll(w, vs, autoOpen, h).trace[k], autoOpen, vs)
    decreases |vs|
  {
    if vs != [] {
      var n := |vs| - 1;
      var front := vs[..n];
      assert vs == front + [vs[n]];
      var w0 := OfferAll(w, front, autoOpen, h);
      OfferAllNewCalls(w, front, autoOpen, h);
      OfferNewCalls(w0, vs[n], autoOpen, h);
      var r := Offer(w0, vs[n], autoOpen, h);
      forall k | |w.trace| <= k < |r.trace| ensures WalkCall(r.trace[k], autoOpen, vs) {
        if k < |w0.trace| {
          assert r.trace[k] == w0.trace[k];
          assert WalkCall(w0.trace[k], autoOpen, front);
        } else {
          assert WalkCall(r.trace[k], autoOpen, [vs[n]]);
        }
      }
    }
  }

  lemma OfferAllSingle(w: Walk, v: Ptr, autoOpen: bool, h: Host)
    ensures OfferAll(w, [v], autoOpen, h) == Offer(w, v, autoOpen, h)
  {
    assert [v][..0] == [];
  }

  /** Walking two parts in turn is walking their concatenation. */
  lemma {:induction false} OfferAllAppend(w: Walk, a: seq<Ptr>, b: seq<Ptr>, autoOpen: bool, h: Host)
    ensures OfferAll(w, a + b, autoOpen, h) == OfferAll(OfferAll(w, a, autoOpen, h), b, autoOpen, h)
    decreases |b|
  {
    if b == [] {
      assert a + b == a;
    } else {
      var n := |b| - 1;
      assert (a + b)[..|a + b| - 1] == a + b[..n] && (a + b)[|a + b| - 1] == b[n];
      OfferAllAppend(w, a, b[..n], autoOpen, h);
    }
  }

  /** A walk over the first `i + 1` children is the walk over the first `i`,
      followed by the walk of child `i`. */
  lemma OfferAllChildStep(w: Walk, children: seq<Widget>, i: nat, autoOpen: bool, h: Host)
    requires i < |children|
    ensures OfferAll(w, Offered(children[..i + 1]), autoOpen, h)
         == OfferAll(OfferAll(w, Offered(children[..i]), autoOpen, h), OfferedBy(children[i]), autoOpen, h)
  {
    OfferedPrefix(children, i);
    OfferAllAppend(w, Offered(children[..i]), OfferedBy(children[i]), autoOpen, h);
  }

  /** A walk over the first `i + 1` windows' offers is the walk over the
      first `i`, followed by window `i`'s. */
  lemma OfferAllWindowStep(w: Walk, wins: seq<Widget>, i: nat, autoOpen: bool, h: Host)
    requires i < |wins|
    ensures OfferAll(w, PassOffers(wins[..i + 1]), autoOpen, h)
         == OfferAll(OfferAll(w, PassOffers(wins[..i]), autoOpen, h), WindowOffers(wins[i]), autoOpen, h)
  {
    PassOffersPrefix(wins, i);
    OfferAllAppend(w, PassOffers(wins[..i]), WindowOffers(wins[i]), autoOpen, h);
  }

  /** From an empty registry, a pass finds a webview iff it offers any view:
      the registry is not empty afterwards exactly when the walk reached some
      view. */
  lemma PassFindsIffOffers(w: Walk, offers: seq<Ptr>, autoOpen: bool, h: Host)
    requires w.views == []
    ensures OfferAll(w, offers, autoOpen, h).views != [] <==> offers != []
  {
    OfferAllEffects(w, offers, autoOpen, h);
    InsertAllGrowsFromEmpty(offers);
  }

  /** Once the real setter can be found, every offered view that has a settings
      object gets developer extras forced on. */
  lemma {:induction false} OfferAllEnablesEvery(w: Walk, vs: seq<Ptr>, autoOpen: bool, h: Host, v: Ptr)
    requires v in vs && v in h.settings
    requires w.setterResolved || SetDevExtrasSym in h.symbols
    ensures |w.trace| <= |OfferAll(w, vs, autoOpen, h).trace|
    ensures RealSetDevExtras(h.settings[v], true) in OfferAll(w, vs, autoOpen, h).trace[|w.trace|..]
    decreases |vs|
  {
    var n := |vs| - 1;
    var front := vs[..n];
    var w0 := OfferAll(w, front, autoOpen, h);
    var r := Offer(w0, vs[n], autoOpen, h);
    OfferAllEffects(w, front, autoOpen, h);
    var x := RealSetDevExtras(h.settings[v], true);
    if vs[n] == v {
      var calls := OfferCalls(w0.views, r.setterResolved, v, autoOpen, h);
      OfferCallsShape(w0.views, r.setterResolved, v, autoOpen, h);
      assert r.trace[|w0.trace|] == calls[0] == x;
      assert r.trace[|w.trace|..][|w0.trace| - |w.trace|] == x;
    } else {
      assert vs == front + [vs[n]];
      OfferAllEnablesEvery(w, front, autoOpen, h, v);
      var k :| 0 <= k < |w0.trace[|w.trace|..]| && w0.trace[|w.trace|..][k] == x;
      assert r.trace[|w.trace|..][k] == x;
    }
  }

  /** The connection `idle_callback` makes for one window, given the windows
      already marked: only a non-null window without the marker gets one. */
  function ConnectOne(win: Widget, seen: set<Ptr>): seq<HostCall>
  {
    if win.Widget? && win.ptr !in seen then [ConnectKeyHandler(win.ptr)] else []
  }

  /** The key-handler connections of a successful pass: each non-null window
      not yet marked, once, marking it as it goes. */
  function KeyHandlerCalls(wins: seq<Widget>, marked: set<Ptr>): seq<HostCall>
  {
    if wins == [] then []
    else
      var front := wins[..|wins| - 1];
      KeyHandlerCalls(front, marked) + ConnectOne(wins[|wins| - 1], marked + WindowPtrs(front))
  }

  /** A pass connects only key handlers: exactly one to each non-null window
      that was not yet marked, even when the list names a window twice, and
      none to any other window. */
  lemma {:induction false} KeyHandlerConnectsOnce(wins: seq<Widget>, marked: set<Ptr>, p: Ptr)
    ensures forall c | c in KeyHandlerCalls(wins, marked) :: c.ConnectKeyHandler?
    ensures Occurrences(KeyHandlerCalls(wins, marked), ConnectKeyHandler(p)) ==
      (if p in WindowPtrs(wins) && p !in marked then 1 else 0)
    decreases |wins|
  {
    if wins != [] {
      var front := wins[..|wins| - 1];
      var one := ConnectOne(wins[|wins| - 1], marked + WindowPtrs(front));
      KeyHandlerConnectsOnce(front, marked, p);
      OccurrencesAppend(KeyHandlerCalls(front, marked), one, ConnectKeyHandler(p));
      if one != [] {
        OccurrencesOne(one[0], ConnectKeyHandler(p));
      }
    }
  }

  /** One failing poll: `retry_count++`, then keep polling while it is at most
      MAX_RETRIES. */
  function RetryAfterFailure(retry: int): (int, bool)
  {
    (retry + 1, retry + 1 <= MAX_RETRIES)
  }

  /** What `n` consecutive failing polls return, starting from `retry_count == start`. */
  function FailingPollResults(start: int, n: nat): (r: seq<bool>)
    ensures |r| == n
    ensures forall i | 0 <= i < n :: r[i] == (start + i + 1 <= MAX_RETRIES)
    decreases n
  {
    if n == 0 then []
    else
      var (next, keep) := RetryAfterFailure(start);
      [keep] + FailingPollResults(next, n - 1)
  }

  /** A host that never succeeds sees exactly MAX_RETRIES "keep polling"
      answers and then "stop". */
  lemma NeverSucceedingHost()
    ensures FailingPollResults(0, MAX_RETRIES + 1) == seq(MAX_RETRIES, _ => true) + [false]
  {
  }

  /** The invariant of the shim's call record: `g_idle_add` has been called
      once iff the poller is installed, the real setter has only ever been
      asked to enable developer extras, and each window carries one key
      handler iff it is marked. */
  ghost predicate TraceValid(trace: seq<HostCall>, installed: bool, marked: set<Ptr>)
  {
    && Occurrences(trace, IdleAdd) == (if installed then 1 else 0)
    && (forall c | c in trace && c.RealSetDevExtras? :: c.enabled)
    && (forall p: Ptr :: Occurrences(trace, ConnectKeyHandler(p)) == (if p in marked then 1 else 0))
  }

  /** A walk's calls keep the invariant. */
  lemma TraceValidAfterWalk(t0: seq<HostCall>, t1: seq<HostCall>, installed: bool, marked: set<Ptr>,
                            autoOpen: bool, vs: seq<Ptr>)
    requires TraceValid(t0, installed, marked)
    requires t0 <= t1
    requires forall k | |t0| <= k < |t1| :: WalkCall(t1[k], autoOpen, vs)
    ensures TraceValid(t1, installed, marked)
  {
    var extra := t1[|t0|..];
    assert t1 == t0 + extra;
    assert forall k | 0 <= k < |extra| :: extra[k] == t1[|t0| + k];
    OccurrencesAppend(t0, extra, IdleAdd);
    OccurrencesPositive(extra, IdleAdd);
    forall p: Ptr ensures Occurrences(t1, ConnectKeyHandler(p)) == Occurrences(t0, ConnectKeyHandler(p)) {
      OccurrencesAppend(t0, extra, ConnectKeyHandler(p));
      OccurrencesPositive(extra, ConnectKeyHandler(p));
    }
  }

  /** A whole walk keeps the invariant. */
  lemma WalkKeepsTraceValid(w: Walk, vs: seq<Ptr>, autoOpen: bool, h: Host, installed: bool, marked: set<Ptr>,
                             t: seq<HostCall>)
    requires TraceValid(w.trace, installed, marked)
    requires t == OfferAll(w, vs, autoOpen, h).trace
    ensures TraceValid(t, installed, marked)
  {
    OfferAllEffects(w, vs, autoOpen, h);
    OfferAllNewCalls(w, vs, autoOpen, h);
    TraceValidAfterWalk(w.trace, t, installed, marked, autoOpen, vs);
  }

  /** A connection pass keeps the invariant, with its windows now marked. */
  lemma TraceValidAfterConnect(t: seq<HostCall>, installed: bool, marked: set<Ptr>, wins: seq<Widget>)
    requires TraceValid(t, installed, marked)
    ensures TraceValid(t + KeyHandlerCalls(wins, marked), installed, marked + WindowPtrs(wins))
  {
    var extra := KeyHandlerCalls(wins, marked);
    KeyHandlerConnectsOnce(wins, marked, 1);
    OccurrencesAppend(t, extra, IdleAdd);
    OccurrencesPositive(extra, IdleAdd);
    forall p: Ptr ensures Occurrences(t + extra, ConnectKeyHandler(p)) ==
      (if p in marked + WindowPtrs(wins) then 1 else 0)
    {
      KeyHandlerConnectsOnce(wins, marked, p);
      OccurrencesAppend(t, extra, ConnectKeyHandler(p));
    }
  }

  /** Any other single call keeps the invariant, as long as it is not a
      setter call passing FALSE. */
  lemma TraceValidAfterCall(t: seq<HostCall>, installed: bool, marked: set<Ptr>, c: HostCall)
    requires TraceValid(t, installed, marked)
    requires c != IdleAdd && !c.ConnectKeyHandler? && (c.RealSetDevExtras? ==> c.enabled)
    ensures TraceValid(t + [c], installed, marked)
  {
    OccurrencesAppend(t, [c], IdleAdd);
    OccurrencesOne(c, IdleAdd);
    forall p: Ptr ensures Occurrences(t + [c], ConnectKeyHandler(p)) == Occurrences(t, ConnectKeyHandler(p)) {
      OccurrencesAppend(t, [c], ConnectKeyHandler(p));
      OccurrencesOne(c, ConnectKeyHandler(p));
    }
  }

  /** The first `g_idle_add` keeps the invariant, with the poller installed. */
  lemma TraceValidAfterInstall(t: seq<HostCall>, marked: set<Ptr>)
    requires TraceValid(t, false, marked)
    ensures TraceValid(t + [IdleAdd], true, marked)
  {
    OccurrencesAppend(t, [IdleAdd], IdleAdd);
    OccurrencesOne(IdleAdd, IdleAdd);
    forall p: Ptr ensures Occurrences(t + [IdleAdd], ConnectKeyHandler(p)) == Occurrences(t, ConnectKeyHandler(p)) {
      OccurrencesAppend(t, [IdleAdd], ConnectKeyHandler(p));
      OccurrencesOne(IdleAdd, ConnectKeyHandler(p));
    }
  }

  /** The states of the idle scan. */
  datatype Phase = NotInstalled | Polling | Succeeded | GaveUp

  /** An optional "install" step's calls: `g_idle_add` unless already installed. */
  function InstallCalls(wasInstalled: bool): seq<HostCall>
  {
    if wasInstalled then [] else [IdleAdd]
  }

  /**
   * The shim's static variables. `trace` records the foreign calls the shim
   * has made, in order, with their arguments; `keyHandlerMarked` is the set of
   * windows that carry the "tauri-spy-key-handler" object data.
   */
  class Shim {
    var spyEnabled: bool
    var idleInstalled: bool
    var autoOpen: bool
    var retryCount: int
    const discovered: array<int>
    var webviewCount: int
    var realGtkMain: bool
    var realGApplicationRun: bool
    var realGtkMainIterationDo: bool
    var realSetDevExtras: bool
    var keyHandlerMarked: set<Ptr>
    ghost var trace: seq<HostCall>

    /** The registry invariant: bounded, no duplicates, no NULL entry below the count. */
    ghost predicate RegistryValid()
      reads this`webviewCount, discovered
    {
      && discovered.Length == MAX_WEBVIEWS
      && InBounds()
      && NoDup(discovered[..webviewCount])
      && (forall i | 0 <= i < webviewCount :: discovered[i] != NULL)
    }

    /** The invariant every entry point of the shim keeps. */
    ghost predicate Valid()
      reads this, discovered
    {
      && RegistryValid()
      // the registry is filled only by the pass that succeeds
      && (spyEnabled <==> webviewCount > 0)
      && retryCount >= 0
      && (spyEnabled || retryCount > 0 || autoOpen ==> idleInstalled)
      && TraceValid(trace, idleInstalled, keyHandlerMarked)
      && (keyHandlerMarked != {} ==> spyEnabled)
    }

    /** The registry is read only within the array's bounds. */
    ghost predicate InBounds()
      reads this`webviewCount, discovered
    {
      0 <= webviewCount <= discovered.Length
    }

    ghost function Registered(): seq<int>
      reads this`webviewCount, discovered
      requires InBounds()
    {
      discovered[..webviewCount]
    }

    ghost function WalkState(): Walk
      reads this`webviewCount, this`realSetDevExtras, this`trace, discovered
      requires InBounds()
    {
      Walk(Registered(), realSetDevExtras, trace)
    }

    function CurrentPhase(): Phase
      reads this
    {
      if !idleInstalled then NotInstalled
      else if spyEnabled then Succeeded
      else if retryCount > MAX_RETRIES then GaveUp
      else Polling
    }

    /** The state at load time: everything zero, every pointer NULL. */
    constructor ()
      ensures Valid() && fresh(discovered)
      ensures discovered[..] == seq(MAX_WEBVIEWS, _ => NULL)
      ensures !spyEnabled && !idleInstalled && !autoOpen && retryCount == 0
      ensures webviewCount == 0 && Registered() == []
      ensures !realGtkMain && !realGApplicationRun && !realGtkMainIterationDo && !realSetDevExtras
      ensures keyHandlerMarked == {} && trace == []
      ensures CurrentPhase() == NotInstalled
    {
      spyEnabled, idleInstalled, autoOpen, retryCount := false, false, false, 0;
      discovered := new int[MAX_WEBVIEWS](_ => NULL);
      webviewCount := 0;
      realGtkMain, realGApplicationRun, realGtkMainIterationDo, realSetDevExtras := false, false, false, false;
      keyHandlerMarked, trace := {}, [];
    }

    /** `ensure_real_set_dev_extras`: look the setter up while it is still unknown. */
    method EnsureRealSetDevExtras(h: Host)
      modifies this`realSetDevExtras
      ensures realSetDevExtras == (old(realSetDevExtras) || SetDevExtrasSym in h.symbols)
    {
      if !realSetDevExtras {
        realSetDevExtras := SetDevExtrasSym in h.symbols;
      }
    }

    /** The hooked `webkit_settings_set_enable_developer_extras`: forwards TRUE
        whatever it is given; `warned` is the "blocked attempt" diagnostic. */
    method SetEnableDeveloperExtras(settings: int, enabled: bool, h: Host) returns (warned: bool)
      requires Valid()
      modifies this`realSetDevExtras, this`trace
      ensures Valid()
      ensures realSetDevExtras == (old(realSetDevExtras) || SetDevExtrasSym in h.symbols)
      ensures trace == old(trace) + (if realSetDevExtras then [RealSetDevExtras(settings, true)] else [])
      ensures warned <==> realSetDevExtras && !enabled
    {
      EnsureRealSetDevExtras(h);
      warned := false;
      if realSetDevExtras {
        TraceValidAfterCall(trace, idleInstalled, keyHandlerMarked, RealSetDevExtras(settings, true));
        trace := trace + [RealSetDevExtras(settings, true)];
        if !enabled {
          warned := true;
        }
      }
    }

    /** The duplicate scan of `enable_devtools_on_webview`: is the view
        among the first `webview_count` entries? */
    method IsTracked(view: Ptr) returns (found: bool)
      requires InBounds()
      ensures found <==> view in Registered()
    {
      var i := 0;
      while i < webviewCount
        invariant 0 <= i <= webviewCount
        invariant forall k | 0 <= k < i :: discovered[k] != view
      {
        if discovered[i] == view {
          assert Registered()[i] == view;
          return true;
        }
        i := i + 1;
      }
      return false;
    }

    /** The first step of `enable_devtools_on_webview`: a view with a settings
        object gets developer extras forced on through the real setter, which
        is looked up only then. */
    method ForceDevExtras(view: Ptr, h: Host)
      modifies this`realSetDevExtras, this`trace
      ensures realSetDevExtras == (old(realSetDevExtras) || (view in h.settings && SetDevExtrasSym in h.symbols))
      ensures trace == old(trace) +
        (if view in h.settings && realSetDevExtras then [RealSetDevExtras(h.settings[view], true)] else [])
    {
      if view in h.settings {
        EnsureRealSetDevExtras(h);
        if realSetDevExtras {
          trace := trace + [RealSetDevExtras(h.settings[view], true)];
        }
      }
    }

    /** The tracking step of `enable_devtools_on_webview`: append the view
        while there is room and it is not yet tracked. `duplicate` is the case
        that ends the call early. */
    method Track(view: Ptr) returns (duplicate: bool)
      requires RegistryValid()
      modifies this`webviewCount, discovered
      ensures RegistryValid()
      ensures Registered() == Insert(old(Registered()), view)
      ensures duplicate <==> |old(Registered())| < MAX_WEBVIEWS && view in old(Registered())
      ensures webviewCount == old(webviewCount) ==> discovered[..] == old(discovered[..])
      ensures webviewCount != old(webviewCount) ==>
        discovered[..] == old(discovered[..])[old(webviewCount) := view]
    {
      ghost var reg := Registered();
      duplicate := false;
      if webviewCount < MAX_WEBVIEWS {
        duplicate := IsTracked(view);
        if !duplicate {
          InsertKeepsNoDup(reg, view);
          discovered[webviewCount] := view;
          webviewCount := webviewCount + 1;
          assert discovered[..webviewCount] == reg + [view];
        }
      }
    }

    /** `enable_devtools_on_webview`. A view already tracked ends the call
        before the auto-open step. */
    method EnableDevtoolsOnWebview(view: Ptr, h: Host)
      requires RegistryValid()
      modifies this`realSetDevExtras, this`trace, this`webviewCount, discovered
      ensures RegistryValid()
      ensures WalkState() == Offer(old(WalkState()), view, autoOpen, h)
    {
      ForceDevExtras(view, h);
      var duplicate := Track(view);
      if duplicate {
        return;
      }
      if autoOpen && view in h.inspectors {
        trace := trace + [InspectorShow(view)];
      }
    }

    /** `traverse_children`: depth first over a container's children, in order. */
    method TraverseChildren(container: Widget, h: Host)
      requires container.Widget? && container.isContainer
      requires RegistryValid()
      modifies this`realSetDevExtras, this`trace, this`webviewCount, discovered
      ensures RegistryValid()
      ensures WalkState() == OfferAll(old(WalkState()), Offered(container.children), autoOpen, h)
      decreases container, 0
    {
      var children := container.children;
      ghost var w0 := WalkState();
      var i := 0;
      while i < |children|
        invariant 0 <= i <= |children|
        invariant RegistryValid()
        invariant WalkState() == OfferAll(w0, Offered(children[..i]), autoOpen, h)
      {
        VisitChild(children[i], h);
        OfferAllChildStep(w0, children, i, autoOpen, h);
        i := i + 1;
      }
      assert children[..i] == children;
    }

    /** One child of `traverse_children`: a view is enabled, then a container
        is descended; a child may be both. */
    method VisitChild(child: Widget, h: Host)
      requires RegistryValid()
      modifies this`realSetDevExtras, this`trace, this`webviewCount, discovered
      ensures RegistryValid()
      ensures WalkState() == OfferAll(old(WalkState()), OfferedBy(child), autoOpen, h)
      decreases child, 1
    {
      if child.Widget? {
        ghost var before := WalkState();
        ghost var viewPart := if child.isView then [child.ptr] else [];
        ghost var containerPart := if child.isContainer then Offered(child.children) else [];
        if child.isView {
          EnableDevtoolsOnWebview(child.ptr, h);
          OfferAllSingle(before, child.ptr, autoOpen, h);
        }
        if child.isContainer {
          TraverseChildren(child, h);
        }
        OfferAllAppend(before, viewPart, containerPart, autoOpen, h);
      }
    }

    /** `on_key_press`. The handler changes no shim state; `calls` are the
        inspector requests it makes, and `handled` is its return value. */
    method OnKeyPress(state: bv32, keyval: bv32, h: Host) returns (handled: bool, calls: seq<HostCall>)
      requires InBounds()
      ensures handled == ChordMatches(state, keyval)
      ensures calls == if handled then ToggleCalls(Registered(), h.inspectors) else []
    {
      if ChordMatches(state, keyval) {
        calls := ToggleAll(h);
        return true, calls;
      }
      return false, [];
    }

    /** The toggle loop of `on_key_press`: over the registry in order, a
        NULL entry or a view without an inspector is skipped. */
    method ToggleAll(h: Host) returns (calls: seq<HostCall>)
      requires InBounds()
      ensures calls == ToggleCalls(Registered(), h.inspectors)
    {
      calls := [];
      ghost var vs := Registered();
      var i := 0;
      while i < webviewCount
        invariant 0 <= i <= webviewCount
        invariant calls == ToggleCalls(vs[..i], h.inspectors)
      {
        var view := discovered[i];
        assert vs[..i + 1][..i] == vs[..i] && vs[..i + 1][i] == view;
        if view != NULL && view in h.inspectors {
          if h.inspectors[view] {
            calls := calls + [InspectorClose(view)];
          } else {
            calls := calls + [InspectorShow(view)];
          }
        }
        i := i + 1;
      }
      assert vs[..i] == vs;
    }

    /** The scan over the top-level windows in `idle_callback`: each window
        that is a container is walked; `found` says whether any walk grew the
        registry. The windows themselves are never offered, and the call
        record keeps its invariant: the walk only adds forced-on setter calls
        and auto-open requests. */
    method ScanWindows(wins: seq<Widget>, h: Host) returns (found: bool)
      requires RegistryValid() && TraceValid(trace, idleInstalled, keyHandlerMarked)
      modifies this`realSetDevExtras, this`trace, this`webviewCount, discovered
      ensures RegistryValid() && TraceValid(trace, idleInstalled, keyHandlerMarked)
      ensures WalkState() == OfferAll(old(WalkState()), PassOffers(wins), autoOpen, h)
      ensures found <==> webviewCount > old(webviewCount)
    {
      ghost var start := webviewCount;
      ghost var w0 := WalkState();
      found := false;
      var i := 0;
      while i < |wins|
        invariant 0 <= i <= |wins|
        invariant RegistryValid()
        invariant WalkState() == OfferAll(w0, PassOffers(wins[..i]), autoOpen, h)
        invariant start <= webviewCount
        invariant found <==> webviewCount > start
      {
        found := ScanWindow(wins, i, found, h, w0, start);
        i := i + 1;
      }
      assert wins[..i] == wins;
      WalkKeepsTraceValid(w0, PassOffers(wins), autoOpen, h, idleInstalled, keyHandlerMarked, trace);
    }

    /** One top-level window of the scan, window `i`: a container is
        walked, anything else is skipped; `found` records whether the
        registry has grown since the scan began. */
    method ScanWindow(wins: seq<Widget>, i: nat, found0: bool, h: Host, ghost w0: Walk, ghost start: int)
      returns (found: bool)
      requires i < |wins|
      requires RegistryValid()
      requires WalkState() == OfferAll(w0, PassOffers(wins[..i]), autoOpen, h)
      requires start <= webviewCount && (found0 <==> webviewCount > start)
      modifies this`realSetDevExtras, this`trace, this`webviewCount, discovered
      ensures RegistryValid()
      ensures WalkState() == OfferAll(w0, PassOffers(wins[..i + 1]), autoOpen, h)
      ensures start <= webviewCount && (found <==> webviewCount > start)
    {
      var win := wins[i];
      found := found0;
      if win.Widget? && win.isContainer {
        var before := webviewCount;
        ghost var w1 := WalkState();
        TraverseChildren(win, h);
        OfferAllEffects(w1, Offered(win.children), autoOpen, h);
        if webviewCount > before {
          found := true;
        }
      }
      OfferAllWindowStep(w0, wins, i, autoOpen, h);
    }

    /** The key-handler loop of a successful `idle_callback`: every non-null
        window without the marker gets the handler, then the marker. */
    method ConnectKeyHandlers(wins: seq<Widget>)
      modifies this`trace, this`keyHandlerMarked
      ensures trace == old(trace) + KeyHandlerCalls(wins, old(keyHandlerMarked))
      ensures keyHandlerMarked == old(keyHandlerMarked) + WindowPtrs(wins)
    {
      ghost var t0, m0 := trace, keyHandlerMarked;
      var j := 0;
      while j < |wins|
        invariant 0 <= j <= |wins|
        invariant trace == t0 + KeyHandlerCalls(wins[..j], m0)
        invariant keyHandlerMarked == m0 + WindowPtrs(wins[..j])
      {
        var win := wins[j];
        assert wins[..j + 1][..j] == wins[..j] && wins[..j + 1][j] == win;
        if win.Widget? && win.ptr !in keyHandlerMarked {
          trace := trace + [ConnectKeyHandler(win.ptr)];
          keyHandlerMarked := keyHandlerMarked + {win.ptr};
        }
        j := j + 1;
      }
      assert wins[..j] == wins;
    }

    /** `idle_callback`, one poll; `keep` is its return value (TRUE asks GLib
        to call it again). */
    method IdleCallback(h: Host) returns (keep: bool)
      requires Valid() && idleInstalled
      modifies this`spyEnabled, this`retryCount, this`webviewCount, this`realSetDevExtras,
        this`trace, this`keyHandlerMarked, discovered
      ensures Valid()
      ensures keep <==> CurrentPhase() == Polling
      // success is terminal: a later poll does nothing
      ensures old(spyEnabled) ==> !keep && unchanged(this) && unchanged(discovered)
      // nothing to scan yet: a failing poll
      ensures !old(spyEnabled) && (!h.webViewTypeRegistered || h.toplevels == []) ==>
        && (retryCount, keep) == RetryAfterFailure(old(retryCount))
        && !spyEnabled && trace == old(trace) && keyHandlerMarked == old(keyHandlerMarked)
        && Registered() == old(Registered()) && realSetDevExtras == old(realSetDevExtras)
      // a pass over the windows
      ensures !old(spyEnabled) && h.webViewTypeRegistered && h.toplevels != [] ==>
        PassOutcome(OfferAll(old(WalkState()), PassOffers(h.toplevels), autoOpen, h),
                    old(retryCount), old(keyHandlerMarked), h, keep)
    {
      if spyEnabled {
        return false;
      }
      if !h.webViewTypeRegistered || h.toplevels == [] {
        keep := FailPoll();
        return;
      }
      keep := PollWindows(h);
    }

    /** What a pass over the windows leaves behind, where `pass` is the walk
        over every window: the registry and setter as the walk leaves them;
        if the walk found any webview (the registry, empty before, is not
        empty after), the success state with key handlers connected,
        otherwise a failing poll. */
    ghost predicate PassOutcome(pass: Walk, retry0: int, marked0: set<Ptr>, h: Host, keep: bool)
      reads this`spyEnabled, this`retryCount, this`webviewCount, this`realSetDevExtras,
        this`trace, this`keyHandlerMarked, discovered
      requires InBounds()
    {
      && Registered() == pass.views && realSetDevExtras == pass.setterResolved
      && (if pass.views != [] then
            && spyEnabled && !keep && retryCount == retry0
            && trace == pass.trace + KeyHandlerCalls(h.toplevels, marked0)
            && keyHandlerMarked == marked0 + WindowPtrs(h.toplevels)
          else
            && !spyEnabled && (retryCount, keep) == RetryAfterFailure(retry0)
            && trace == pass.trace && keyHandlerMarked == marked0)
    }

    /** The part of `idle_callback` after the type and top-level checks: walk
        every window, then either fail the poll or connect the key handlers
        and finish. */
    method PollWindows(h: Host) returns (keep: bool)
      requires Valid() && idleInstalled && !spyEnabled
      modifies this`spyEnabled, this`retryCount, this`webviewCount, this`realSetDevExtras,
        this`trace, this`keyHandlerMarked, discovered
      ensures Valid()
      ensures keep <==> CurrentPhase() == Polling
      ensures PassOutcome(OfferAll(old(WalkState()), PassOffers(h.toplevels), autoOpen, h),
                          old(retryCount), old(keyHandlerMarked), h, keep)
    {
      var wins := h.toplevels;
      ghost var pass := OfferAll(WalkState(), PassOffers(wins), autoOpen, h);
      ghost var retry0, marked0 := retryCount, keyHandlerMarked;
      var found := ScanWindows(wins, h);
      if !found {
        keep := FailPass(h, pass, retry0, marked0);
        return;
      }
      FinishPass(h, pass, retry0, marked0);
      keep := false;
    }

    /** A failing poll: `retry_count++`, then keep polling while it is at most
        MAX_RETRIES. */
    method FailPoll() returns (keep: bool)
      requires retryCount >= 0
      modifies this`retryCount
      ensures (retryCount, keep) == RetryAfterFailure(old(retryCount))
    {
      retryCount := retryCount + 1;
      keep := retryCount <= MAX_RETRIES;
    }

    /** A pass over the windows that found no webview: a failing poll. */
    method FailPass(h: Host, ghost pass: Walk, ghost retry0: int, ghost marked0: set<Ptr>) returns (keep: bool)
      requires RegistryValid() && webviewCount == 0 && !spyEnabled && idleInstalled
      requires TraceValid(trace, idleInstalled, keyHandlerMarked) && keyHandlerMarked == {}
      requires Registered() == pass.views && realSetDevExtras == pass.setterResolved && trace == pass.trace
      requires retryCount == retry0 >= 0 && keyHandlerMarked == marked0
      modifies this`retryCount
      ensures Valid()
      ensures keep <==> CurrentPhase() == Polling
      ensures PassOutcome(pass, retry0, marked0, h, keep)
    {
      keep := FailPoll();
    }

    /** The end of a successful `idle_callback`: connect the key handlers,
        then mark the spy as enabled. */
    method FinishPass(h: Host, ghost pass: Walk, ghost retry0: int, ghost marked0: set<Ptr>)
      requires RegistryValid() && webviewCount > 0 && idleInstalled
      requires TraceValid(trace, idleInstalled, keyHandlerMarked)
      requires Registered() == pass.views && realSetDevExtras == pass.setterResolved && trace == pass.trace
      requires retryCount == retry0 >= 0 && keyHandlerMarked == marked0
      modifies this`spyEnabled, this`trace, this`keyHandlerMarked
      ensures Valid()
      ensures CurrentPhase() == Succeeded
      ensures PassOutcome(pass, retry0, marked0, h, false)
    {
      TraceValidAfterConnect(trace, idleInstalled, keyHandlerMarked, h.toplevels);
      ConnectKeyHandlers(h.toplevels);
      spyEnabled := true;
    }

    /** `install_idle_callback`: the first call marks the poller installed,
        reads the auto-open flag and schedules the poller; later calls do nothing. */
    method InstallIdleCallback(h: Host)
      requires Valid()
      modifies this`idleInstalled, this`autoOpen, this`trace
      ensures Valid() && idleInstalled
      ensures old(idleInstalled) ==> autoOpen == old(autoOpen) && trace == old(trace)
      ensures !old(idleInstalled) ==> autoOpen == ParseAutoOpen(h.autoOpenEnv)
      ensures trace == old(trace) + InstallCalls(old(idleInstalled))
    {
      if idleInstalled {
        return;
      }
      TraceValidAfterInstall(trace, keyHandlerMarked);
      idleInstalled := true;
      if ParseAutoOpen(h.autoOpenEnv) {
        autoOpen := true;
      }
      trace := trace + [IdleAdd];
    }

    /** The hooked `gtk_main`: without the real function it returns at once;
        otherwise it installs the poller and enters the real main loop. */
    method GtkMain(h: Host)
      requires Valid()
      modifies this`realGtkMain, this`idleInstalled, this`autoOpen, this`trace
      ensures Valid()
      ensures realGtkMain == (old(realGtkMain) || GtkMainSym in h.symbols)
      ensures !realGtkMain ==> idleInstalled == old(idleInstalled) && autoOpen == old(autoOpen) && trace == old(trace)
      ensures realGtkMain ==>
        && idleInstalled
        && (!old(idleInstalled) ==> autoOpen == ParseAutoOpen(h.autoOpenEnv))
        && (old(idleInstalled) ==> autoOpen == old(autoOpen))
        && trace == old(trace) + InstallCalls(old(idleInstalled)) + [RealGtkMain]
    {
      if !realGtkMain {
        realGtkMain := GtkMainSym in h.symbols;
        if !realGtkMain {
          return;
        }
      }
      InstallIdleCallback(h);
      TraceValidAfterCall(trace, idleInstalled, keyHandlerMarked, RealGtkMain);
      trace := trace + [RealGtkMain];
    }

    /** The hooked `g_application_run`: 1 without the real function; otherwise
        it installs the poller and returns what the real function returns for
        the same arguments. */
    method GApplicationRun(app: int, argc: int, argv: int, h: Host, realResult: int) returns (status: int)
      requires Valid()
      modifies this`realGApplicationRun, this`idleInstalled, this`autoOpen, this`trace
      ensures Valid()
      ensures realGApplicationRun == (old(realGApplicationRun) || GApplicationRunSym in h.symbols)
      ensures !realGApplicationRun ==>
        && status == 1
        && idleInstalled == old(idleInstalled) && autoOpen == old(autoOpen) && trace == old(trace)
      ensures realGApplicationRun ==>
        && status == realResult && idleInstalled
        && (!old(idleInstalled) ==> autoOpen == ParseAutoOpen(h.autoOpenEnv))
        && (old(idleInstalled) ==> autoOpen == old(autoOpen))
        && trace == old(trace) + InstallCalls(old(idleInstalled)) + [RealGApplicationRun(app, argc, argv)]
    {
      if !realGApplicationRun {
        realGApplicationRun := GApplicationRunSym in h.symbols;
        if !realGApplicationRun {
          return 1;
        }
      }
      InstallIdleCallback(h);
      TraceValidAfterCall(trace, idleInstalled, keyHandlerMarked, RealGApplicationRun(app, argc, argv));
      trace := trace + [RealGApplicationRun(app, argc, argv)];
      return realResult;
    }

    /** The hooked `gtk_main_iteration_do`: FALSE without the real function;
        otherwise it installs the poller if not yet installed and performs the
        real iteration with the same `blocking` argument. */
    method GtkMainIterationDo(blocking: bool, h: Host, realResult: bool) returns (r: bool)
      requires Valid()
      modifies this`realGtkMainIterationDo, this`idleInstalled, this`autoOpen, this`trace
      ensures Valid()
      ensures realGtkMainIterationDo == (old(realGtkMainIterationDo) || GtkMainIterationDoSym in h.symbols)
      ensures !realGtkMainIterationDo ==>
        && !r
        && idleInstalled == old(idleInstalled) && autoOpen == old(autoOpen) && trace == old(trace)
      ensures realGtkMainIterationDo ==>
        && r == realResult && idleInstalled
        && (!old(idleInstalled) ==> autoOpen == ParseAutoOpen(h.autoOpenEnv))
        && (old(idleInstalled) ==> autoOpen == old(autoOpen))
        && trace == old(trace) + InstallCalls(old(idleInstalled)) + [RealGtkMainIterationDo(blocking)]
    {
      if !realGtkMainIterationDo {
        realGtkMainIterationDo := GtkMainIterationDoSym in h.symbols;
        if !realGtkMainIterationDo {
          return false;
        }
      }
      if !idleInstalled {
        InstallIdleCallback(h);
      }
      TraceValidAfterCall(trace, idleInstalled, keyHandlerMarked, RealGtkMainIterationDo(blocking));
      trace := trace + [RealGtkMainIterationDo(blocking)];
      return realResult;
    }
  }
}
