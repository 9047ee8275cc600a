/**
 * What the shim sees of its host process: opaque handles, the widget tree,
 * which symbols `dlsym(RTLD_NEXT, ...)` finds, and the foreign calls the shim
 * makes. Also the order in which the tree walk visits views.
 */
module Host {
  import opened Wrappers

  /** An opaque, non-null handle to a host-owned object (widget, window, settings). */
  type Ptr = p: int | p != 0 witness 1

  const NULL: int := 0

  /** A child as `gtk_container_get_children` reports it: a null entry, or a
      widget whose runtime type may make it a WebKitWebView, a GtkContainer,
      both or neither. */
  datatype Widget =
    | Null
    | Widget(ptr: Ptr, isView: bool, isContainer: bool, children: seq<Widget>)

  /** The real functions the shim looks up by name. */
  datatype Symbol =
    | GtkMainSym
    | GApplicationRunSym
    | GtkMainIterationDoSym
    | SetDevExtrasSym

  /** The answers the host gives the shim at one moment. */
  datatype Host = Host(
    symbols: set<Symbol>,           // names dlsym(RTLD_NEXT, ...) resolves
    autoOpenEnv: Option<string>,    // getenv("TAURI_SPY_AUTO_OPEN")
    webViewTypeRegistered: bool,    // g_type_from_name("WebKitWebView") != 0
    toplevels: seq<Widget>,         // gtk_window_list_toplevels()
    settings: map<int, Ptr>,        // webkit_web_view_get_settings, absent = NULL
    inspectors: map<int, bool>)     // webkit_web_view_get_inspector present, and is_attached

  /** A foreign call the shim issues, with the arguments it passes. */
  datatype HostCall =
    | RealSetDevExtras(settings: int, enabled: bool)
    | InspectorShow(view: Ptr)
    | InspectorClose(view: Ptr)
    | IdleAdd
    | ConnectKeyHandler(window: Ptr)
    | RealGtkMain
    | RealGApplicationRun(app: int, argc: int, argv: int)
    | RealGtkMainIterationDo(blocking: bool)

  /** How many times `c` occurs in a record of calls. */
  function Occurrences(calls: seq<HostCall>, c: HostCall): nat
    decreases calls
  {
    if calls == [] then 0
    else (if calls[0] == c then 1 else 0) + Occurrences(calls[1..], c)
  }

  /** Counting distributes over concatenation. */
  lemma {:induction false} OccurrencesAppend(a: seq<HostCall>, b: seq<HostCall>, c: HostCall)
    ensures Occurrences(a + b, c) == Occurrences(a, c) + Occurrences(b, c)
    decreases a
  {
    if a == [] {
      assert a + b == b;
    } else {
      assert (a + b)[0] == a[0] && (a + b)[1..] == a[1..] + b;
      OccurrencesAppend(a[1..], b, c);
    }
  }

  lemma OccurrencesOne(x: HostCall, c: HostCall)
    ensures Occurrences([x], c) == if x == c then 1 else 0
  {
    assert [x][1..] == [];
  }

  /** A call occurs at least once iff it is in the record. */
  lemma {:induction false} OccurrencesPositive(calls: seq<HostCall>, c: HostCall)
    ensures Occurrences(calls, c) > 0 <==> c in calls
    decreases calls
  {
    if calls != [] {
      OccurrencesPositive(calls[1..], c);
      assert calls == [calls[0]] + calls[1..];
    }
  }

  /** The views a walk over these children offers, in visiting order: depth
      first, in child order, a view before its own children. */
  function Offered(children: seq<Widget>): seq<Ptr>
    decreases children
  {
    if children == [] then []
    else OfferedBy(children[0]) + Offered(children[1..])
  }

  function OfferedBy(w: Widget): seq<Ptr>
    decreases w
  {
    match w
    case Null => []
    case Widget(p, isView, isContainer, children) =>
      (if isView then [p] else []) + (if isContainer then Offered(children) else [])
  }

  /** The walk over the first `i + 1` children is the walk over the first `i`,
      then child `i`. */
  lemma {:induction false} OfferedPrefix(children: seq<Widget>, i: nat)
    requires i < |children|
    ensures Offered(children[..i + 1]) == Offered(children[..i]) + OfferedBy(children[i])
    decreases i
  {
    if i > 0 {
      OfferedPrefix(children[1..], i - 1);
      assert children[1..][..i] == children[..i + 1][1..];
      assert children[1..][..i - 1] == children[..i][1..];
    }
  }

  /** Reference definition of the walk's reach: `v` is a view among these
      children, or one reached by descending through containers only. */
  ghost predicate Reaches(children: seq<Widget>, v: Ptr)
    decreases children
  {
    exists i | 0 <= i < |children| :: ReachesVia(children[i], v)
  }

  /** `v` is this widget itself, if it is a view, or is reached through it,
      if it is a container. */
  ghost predicate ReachesVia(w: Widget, v: Ptr)
    decreases w
  {
    && w.Widget?
    && ((w.isView && w.ptr == v) || (w.isContainer && Reaches(w.children, v)))
  }

  lemma ReachesFirst(children: seq<Widget>, v: Ptr)
    requires children != []
    ensures Reaches(children, v) <==> ReachesVia(children[0], v) || Reaches(children[1..], v)
  {
    var rest := children[1..];
    if Reaches(children, v) {
      var i :| 0 <= i < |children| && ReachesVia(children[i], v);
      if i > 0 {
        assert rest[i - 1] == children[i];
      }
    }
    if Reaches(rest, v) {
      var i :| 0 <= i < |rest| && ReachesVia(rest[i], v);
      assert children[i + 1] == rest[i];
    }
  }

  /** The walk offers exactly the views it can reach through containers. */
  lemma {:induction false} OfferedIffReaches(children: seq<Widget>, v: Ptr)
    ensures v in Offered(children) <==> Reaches(children, v)
    decreases children
  {
    if children != [] {
      OfferedByIffReachesVia(children[0], v);
      OfferedIffReaches(children[1..], v);
      ReachesFirst(children, v);
    }
  }

  lemma {:induction false} OfferedByIffReachesVia(w: Widget, v: Ptr)
    ensures v in OfferedBy(w) <==> ReachesVia(w, v)
    decreases w
  {
    if w.Widget? && w.isContainer {
      OfferedIffReaches(w.children, v);
    }
  }

  /** The views one top-level window contributes to an idle pass: its
      children if it is a container. The window itself is never tested for
      being a view. */
  function WindowOffers(win: Widget): seq<Ptr>
  {
    if win.Widget? && win.isContainer then Offered(win.children) else []
  }

  /** The views one idle pass offers, window by window. */
  function PassOffers(wins: seq<Widget>): seq<Ptr>
  {
    if wins == [] then []
    else WindowOffers(wins[0]) + PassOffers(wins[1..])
  }

  /** The pass over the first `i + 1` windows is the pass over the first `i`,
      then window `i`. */
  lemma {:induction false} PassOffersPrefix(wins: seq<Widget>, i: nat)
    requires i < |wins|
    ensures PassOffers(wins[..i + 1]) == PassOffers(wins[..i]) + WindowOffers(wins[i])
    decreases i
  {
    if i > 0 {
      PassOffersPrefix(wins[1..], i - 1);
      assert wins[1..][..i] == wins[..i + 1][1..];
      assert wins[1..][..i - 1] == wins[..i][1..];
    }
  }

  /** The non-null windows of a top-level list. */
  function WindowPtrs(wins: seq<Widget>): set<Ptr>
  {
    if wins == [] then {}
    else WindowPtrs(wins[..|wins| - 1]) + (if wins[|wins| - 1].Widget? then {wins[|wins| - 1].ptr} else {})
  }

  /** A handle is among the window handles iff some entry of the list is
      that non-null window. */
  lemma {:induction false} WindowPtrsMembers(wins: seq<Widget>, p: Ptr)
    ensures p in WindowPtrs(wins) <==> exists i | 0 <= i < |wins| :: wins[i] != Null && wins[i].ptr == p
    decreases |wins|
  {
    if wins != [] {
      var n := |wins| - 1;
      var front := wins[..n];
      WindowPtrsMembers(front, p);
      if p in WindowPtrs(front) {
        var i :| 0 <= i < |front| && front[i] != Null && front[i].ptr == p;
        assert wins[i] == front[i];
      }
      if exists i | 0 <= i < |wins| :: wins[i] != Null && wins[i].ptr == p {
        var i :| 0 <= i < |wins| && wins[i] != Null && wins[i].ptr == p;
        if i < n {
          assert front[i] == wins[i];
        }
      }
    }
  }
}
