/**
 * The Android map-view wrapper around the native map: a live/destroyed
 * lifecycle in which every public operation turns into a no-op returning a
 * fixed default once `destroy` has run, the checks on view and framebuffer
 * sizes, and the list of map-change listeners.
 *
 * Native calls are not executed; each one is appended to a trace kept in
 * the view, and a native call that answers takes its answer as a parameter.
 */
module MapViewLifecycle {
  import opened Results

  type Int32 = x: int | -0x8000_0000 <= x < 0x8000_0000
  type Int64 = x: int | -0x8000_0000_0000_0000 <= x < 0x8000_0000_0000_0000

  /** The largest width or height the native side accepts. */
  const MaxDimension := 65535

  datatype Failure =
    | IllegalArgument(message: string)   // IllegalArgumentException
    | IndexOutOfBounds                   // ArrayIndexOutOfBoundsException
    | NullPointer                        // NullPointerException

  /** A listener or callback, by identity. */
  type Listener = nat

  /** The public operations that return nothing, each forwarded to one native call. */
  datatype Command =
    | InitializeDisplay | TerminateDisplay | InitializeContext | TerminateContext
    | CreateSurface | DestroySurface | Update | Render
    | AddClass(clazz: string) | RemoveClass(clazz: string) | SetClasses(classes: seq<string>)
    | SetStyleUrl(url: string) | SetStyleJson(json: string) | SetAccessToken(token: string)
    | CancelTransitions | SetGestureInProgress(inProgress: bool)
    | MoveBy | SetLatLng | ResetPosition | SetPitch | ScaleBy | SetScale
    | SetZoom | ResetZoom | SetMinZoom | SetMaxZoom | RotateBy | SetContentPadding
    | SetBearing | SetBearingXY | ResetNorth
    | UpdateMarker | UpdatePolygon | UpdatePolyline | RemoveAnnotations(ids: seq<int>)
    | AddAnnotationIcon(symbol: string) | SetVisibleCoordinateBounds | OnLowMemory
    | SetDebug(debug: bool) | ToggleDebug | SetReachability(status: bool)
    | JumpTo | EaseTo | FlyTo
    | AddLayer | RemoveLayerById(layerId: string) | RemoveLayer
    | AddSource | RemoveSourceById(sourceId: string) | RemoveSource
    | AddImage(name: string) | RemoveImage(name: string)
    | ScheduleTakeSnapshot | SetApiBaseUrl(baseUrl: string)

  /** The public operations that return a value computed by the native map. */
  datatype Query =
    | HasClass(clazz: string) | GetClasses
    | GetStyleUrl | GetStyleJson | GetAccessToken
    | GetLatLng | GetPitch | GetScale | GetZoom | GetMinZoom | GetMaxZoom | GetBearing
    | AddMarker | AddMarkers | AddPolyline | AddPolylines | AddPolygon | AddPolygons
    | QueryPointAnnotations | GetDebug | IsFullyLoaded
    | GetMetersPerPixelAtLatitude | ProjectedMetersForLatLng | LatLngForProjectedMeters
    | PixelForLatLng | LatLngForPixel | GetTopOffsetPixelsForAnnotationSymbol(symbol: string)
    | GetCameraValues | GetLayer(layerId: string) | GetSource(sourceId: string)
    | QueryRenderedFeaturesForPoint | QueryRenderedFeaturesForBox

  /** A Java value crossing the native boundary; feature and object handles are opaque. */
  datatype Value =
    | Flag(b: bool)
    | Number(x: real)
    | Long(n: int)
    | Longs(ns: seq<int>)
    | Numbers(xs: seq<real>)
    | Strings(items: seq<string>)
    | Str(s: string)
    | Coordinates(first: real, second: real)
    | Handle(h: nat)
    | NullRef
    | FeatureArray(features: Option<seq<nat>>)   // a native array, possibly null
    | FeatureList(list: seq<nat>)                // a Java list, never null

  /** The native calls the wrapper makes, as recorded in its trace. */
  datatype NativeCall =
    | Create(cachePath: string, dataPath: string, apkPath: string, pixelRatio: real,
             availableProcessors: int, totalMemory: int)
    | DestroyCall(ptr: int)
    | Invoke(ptr: int, cmd: Command)
    | Queried(ptr: int, q: Query)
    | ViewResize(ptr: int, width: int, height: int)
    | FramebufferResize(ptr: int, width: int, height: int)

  datatype SnapshotRequest = SnapshotRequest(bitmap: Option<nat>, callback: Listener)

  /**
   * The wrapper's state: the destroyed flag, the native pointer, whether it
   * still refers to its MapView, the device pixel ratio, the map-change
   * listeners, a pending snapshot request, and the trace of native calls.
   */
  datatype MapView = MapView(
    destroyed: bool,
    ptr: int,
    attached: bool,
    pixelRatio: real,
    listeners: seq<Listener>,
    snapshot: Option<SnapshotRequest>,
    calls: seq<NativeCall>)

  /** What `destroy` establishes and nothing undoes. */
  predicate Consistent(v: MapView) {
    v.destroyed ==> v.ptr == 0 && !v.attached
  }

  // ---------------------------------------------------------------------------
  // Construction and destruction
  // ---------------------------------------------------------------------------

  /**
   * The constructor: reject a negative processor count, then a negative
   * memory size, before anything native happens; otherwise create the native
   * map, which answers with its pointer. The cache and data paths coincide.
   */
  function Construct(dataPath: string, apkPath: string, pixelRatio: real,
                     availableProcessors: Int32, totalMemory: Int64, nativePtr: int): (r: Result<MapView, Failure>)
    ensures r.Err? <==> availableProcessors < 0 || totalMemory < 0
    ensures availableProcessors < 0 ==>
              r == Err(IllegalArgument("availableProcessors cannot be negative."))
    ensures availableProcessors >= 0 && totalMemory < 0 ==>
              r == Err(IllegalArgument("totalMemory cannot be negative."))
    ensures r.Ok? ==>
              && !r.value.destroyed && r.value.attached && Consistent(r.value)
              && r.value.ptr == nativePtr && r.value.pixelRatio == pixelRatio
              && r.value.listeners == [] && r.value.snapshot.None?
              && r.value.calls == [Create(dataPath, dataPath, apkPath, pixelRatio, availableProcessors, totalMemory)]
  {
    if availableProcessors < 0 then Err(IllegalArgument("availableProcessors cannot be negative."))
    else if totalMemory < 0 then Err(IllegalArgument("totalMemory cannot be negative."))
    else Ok(MapView(false, nativePtr, true, pixelRatio, [], None,
                    [Create(dataPath, dataPath, apkPath, pixelRatio, availableProcessors, totalMemory)]))
  }

  /**
   * `destroy`: destroy the native map through the current pointer, then zero
   * the pointer, drop the MapView and set the flag. It is not itself
   * guarded, so destroying twice passes a zero pointer the second time.
   */
  function Destroy(v: MapView): (r: MapView)
    ensures r.destroyed && r.ptr == 0 && !r.attached && Consistent(r)
    ensures r.calls == v.calls + [DestroyCall(v.ptr)]
    ensures r.listeners == v.listeners && r.snapshot == v.snapshot && r.pixelRatio == v.pixelRatio
  {
    v.(destroyed := true, ptr := 0, attached := false, calls := v.calls + [DestroyCall(v.ptr)])
  }

  // ---------------------------------------------------------------------------
  // Guarded operations
  // ---------------------------------------------------------------------------

  /** A command: nothing at all once destroyed, otherwise its native call. */
  function Perform(v: MapView, cmd: Command): (r: MapView)
    ensures v.destroyed ==> r == v
    ensures !v.destroyed ==> r == v.(calls := v.calls + [Invoke(v.ptr, cmd)])
  {
    if v.destroyed then v else v.(calls := v.calls + [Invoke(v.ptr, cmd)])
  }

  /** `removeAnnotation(id)` forwards to `removeAnnotations` with the one id. */
  function RemoveAnnotation(v: MapView, id: int): (r: MapView)
    ensures v.destroyed ==> r == v
    ensures !v.destroyed ==> r.calls == v.calls + [Invoke(v.ptr, RemoveAnnotations([id]))]
    ensures r.(calls := v.calls) == v
  {
    if v.destroyed then v else Perform(v, RemoveAnnotations([id]))
  }

  /** The value each query returns once the view is destroyed. */
  function Default(q: Query): Value {
    match q
    case HasClass(_) => Flag(false)
    case GetClasses => Strings([])
    case GetStyleUrl => NullRef
    case GetStyleJson => NullRef
    case GetAccessToken => NullRef
    case GetLatLng => Coordinates(0.0, 0.0)
    case GetPitch => Number(0.0)
    case GetScale => Number(0.0)
    case GetZoom => Number(0.0)
    case GetMinZoom => Number(0.0)
    case GetMaxZoom => Number(0.0)
    case GetBearing => Number(0.0)
    case AddMarker => Long(0)
    case AddMarkers => Longs([])
    case AddPolyline => Long(0)
    case AddPolylines => Longs([])
    case AddPolygon => Long(0)
    case AddPolygons => Longs([])
    case QueryPointAnnotations => Longs([])
    case GetDebug => Flag(false)
    case IsFullyLoaded => Flag(false)
    case GetMetersPerPixelAtLatitude => Number(0.0)
    case ProjectedMetersForLatLng => NullRef
    case LatLngForProjectedMeters => Coordinates(0.0, 0.0)
    case PixelForLatLng => Coordinates(0.0, 0.0)
    case LatLngForPixel => Coordinates(0.0, 0.0)
    case GetTopOffsetPixelsForAnnotationSymbol(_) => Number(0.0)
    case GetCameraValues => Numbers([])
    case GetLayer(_) => NullRef
    case GetSource(_) => NullRef
    case QueryRenderedFeaturesForPoint => FeatureList([])
    case QueryRenderedFeaturesForBox => FeatureList([])
  }

  /** The shape of answer the native method for a query returns. */
  predicate Fits(q: Query, reply: Value) {
    match q
    case HasClass(_) => reply.Flag?
    case GetDebug => reply.Flag?
    case IsFullyLoaded => reply.Flag?
    case GetClasses => reply.Strings?
    case GetStyleUrl => reply.Str? || reply.NullRef?
    case GetStyleJson => reply.Str? || reply.NullRef?
    case GetAccessToken => reply.Str? || reply.NullRef?
    case GetLatLng => reply.Coordinates?
    case LatLngForProjectedMeters => reply.Coordinates?
    case PixelForLatLng => reply.Coordinates?
    case LatLngForPixel => reply.Coordinates?
    case ProjectedMetersForLatLng => reply.Coordinates? || reply.NullRef?
    case AddMarker => reply.Longs? || reply.NullRef?
    case AddMarkers => reply.Longs? || reply.NullRef?
    case AddPolyline => reply.Longs? || reply.NullRef?
    case AddPolylines => reply.Longs? || reply.NullRef?
    case AddPolygon => reply.Longs? || reply.NullRef?
    case AddPolygons => reply.Longs? || reply.NullRef?
    case QueryPointAnnotations => reply.Longs? || reply.NullRef?
    case GetCameraValues => reply.Numbers?
    case GetLayer(_) => reply.Handle? || reply.NullRef?
    case GetSource(_) => reply.Handle? || reply.NullRef?
    case QueryRenderedFeaturesForPoint => reply.FeatureArray?
    case QueryRenderedFeaturesForBox => reply.FeatureArray?
    case _ => reply.Number?
  }

  /** Single-annotation adds return the first id of the native array. */
  predicate AddsOne(q: Query) {
    q.AddMarker? || q.AddPolyline? || q.AddPolygon?
  }

  /**
   * What a live view returns for a query, given the native answer: the first
   * id for single adds (an empty native array makes that index fail), an
   * empty list for a null feature array, a point scaled back by the pixel
   * ratio, and the native answer unchanged otherwise.
   */
  function Answer(q: Query, reply: Value, pixelRatio: real): (r: Result<Value, Failure>)
    requires Fits(q, reply)
    ensures AddsOne(q) && reply.NullRef? ==> r == Err(NullPointer)
    ensures AddsOne(q) && reply.Longs? ==> (r.Err? <==> reply.ns == [])
    ensures AddsOne(q) && reply.Longs? && r.Ok? ==> r.value == Long(reply.ns[0])
    ensures AddsOne(q) && reply.Longs? && r.Err? ==> r.error == IndexOutOfBounds
    ensures !AddsOne(q) ==> r.Ok?
    ensures (q.QueryRenderedFeaturesForPoint? || q.QueryRenderedFeaturesForBox?) ==>
              r.Ok? && r.value.FeatureList?
              && (reply.features.None? ==> r.value.list == [])
              && (reply.features.Some? ==> r.value.list == reply.features.value)
    ensures q.PixelForLatLng? ==> r == Ok(Coordinates(reply.first * pixelRatio, reply.second * pixelRatio))
    ensures !AddsOne(q) && !q.PixelForLatLng? && !q.QueryRenderedFeaturesForPoint? && !q.QueryRenderedFeaturesForBox? ==>
              r == Ok(reply)
  {
    if AddsOne(q) then
      if reply.NullRef? then Err(NullPointer)
      else if |reply.ns| > 0 then Ok(Long(reply.ns[0])) else Err(IndexOutOfBounds)
    else if q.QueryRenderedFeaturesForPoint? || q.QueryRenderedFeaturesForBox? then
      match reply.features
      case Some(fs) => Ok(FeatureList(fs))
      case None => Ok(FeatureList([]))
    else if q.PixelForLatLng? then
      Ok(Coordinates(reply.first * pixelRatio, reply.second * pixelRatio))
    else Ok(reply)
  }

  /** The native calls a live query makes; the meters-per-pixel query asks for the zoom first. */
  function QueryCalls(ptr: int, q: Query): (calls: seq<NativeCall>)
    ensures |calls| > 0 && calls[|calls| - 1] == Queried(ptr, q)
    ensures q.GetMetersPerPixelAtLatitude? ==> calls == [Queried(ptr, GetZoom), Queried(ptr, q)]
    ensures !q.GetMetersPerPixelAtLatitude? ==> calls == [Queried(ptr, q)]
  {
    if q.GetMetersPerPixelAtLatitude? then [Queried(ptr, GetZoom), Queried(ptr, q)] else [Queried(ptr, q)]
  }

  /**
   * A query: once destroyed, its fixed default and no native call;
   * otherwise its native calls and the answer derived from the native reply.
   */
  function Ask(v: MapView, q: Query, reply: Value): (r: (MapView, Result<Value, Failure>))
    requires Fits(q, reply)
    ensures v.destroyed ==> r.0 == v && r.1 == Ok(Default(q))
    ensures !v.destroyed ==> r.0 == v.(calls := v.calls + QueryCalls(v.ptr, q))
    ensures !v.destroyed ==> r.1 == Answer(q, reply, v.pixelRatio)
  {
    if v.destroyed then (v, Ok(Default(q)))
    else (v.(calls := v.calls + QueryCalls(v.ptr, q)), Answer(q, reply, v.pixelRatio))
  }

  /** The device pixel ratio, or 0 once destroyed; no native call either way. */
  function GetPixelRatio(v: MapView): (r: real)
    ensures v.destroyed ==> r == 0.0
    ensures !v.destroyed ==> r == v.pixelRatio
  {
    if v.destroyed then 0.0 else v.pixelRatio
  }

  /** The MapView's width (or height), or 0 once destroyed. */
  function GetViewDimension(v: MapView, viewDimension: int): (r: int)
    ensures v.destroyed ==> r == 0
    ensures !v.destroyed ==> r == viewDimension
  {
    if v.destroyed then 0 else viewDimension
  }

  /** Once destroyed, the queries answer their fixed defaults and the view does not change. */
  lemma DestroyedDefaults(v: MapView, clazz: string, reply: Value)
    requires v.destroyed
    ensures reply.Flag? ==> Ask(v, HasClass(clazz), reply) == (v, Ok(Flag(false)))
    ensures reply.Strings? ==> Ask(v, GetClasses, reply) == (v, Ok(Strings([])))
    ensures reply.Longs? ==> Ask(v, AddMarkers, reply) == (v, Ok(Longs([])))
    ensures reply.Longs? ==> Ask(v, AddMarker, reply) == (v, Ok(Long(0)))
    ensures GetPixelRatio(v) == 0.0
  {
  }

  // ---------------------------------------------------------------------------
  // Sizes
  // ---------------------------------------------------------------------------

  /** Caps a non-negative dimension at the largest one the native side accepts. */
  function Clamp(x: int): (r: int)
    requires x >= 0
    ensures 0 <= r <= MaxDimension
    ensures x <= MaxDimension ==> r == x
    ensures x > MaxDimension ==> r == MaxDimension
  {
    if x > MaxDimension then MaxDimension else x
  }

  /**
   * `resizeView`, given the dimensions already divided by the pixel ratio:
   * a negative width, then a negative height, throws; larger than 65535 is
   * capped; the result goes to the native view resize.
   */
  function ResizeView(v: MapView, width: Int32, height: Int32): (r: Outcome<MapView, Failure>)
    ensures v.destroyed ==> r == Outcome(v, None)
    ensures !v.destroyed ==> (r.Threw() <==> width < 0 || height < 0)
    ensures r.Threw() ==> r.state == v
    ensures !v.destroyed && width < 0 ==>
              r.thrown == Some(IllegalArgument("width cannot be negative."))
    ensures !v.destroyed && width >= 0 && height < 0 ==>
              r.thrown == Some(IllegalArgument("height cannot be negative."))
    ensures !v.destroyed && width >= 0 && height >= 0 ==>
              r.state == v.(calls := v.calls + [ViewResize(v.ptr, Clamp(width), Clamp(height))])
  {
    if v.destroyed then Outcome(v, None)
    else if width < 0 then Outcome(v, Some(IllegalArgument("width cannot be negative.")))
    else if height < 0 then Outcome(v, Some(IllegalArgument("height cannot be negative.")))
    else
      var w := if width > MaxDimension then MaxDimension else width;
      var h := if height > MaxDimension then MaxDimension else height;
      Outcome(v.(calls := v.calls + [ViewResize(v.ptr, w, h)]), None)
  }

  /**
   * `resizeFramebuffer`: anything outside 0..65535 throws, negativity being
   * checked first (width, then height) and the upper bound after; otherwise
   * both values go to the native framebuffer resize unchanged.
   */
  function ResizeFramebuffer(v: MapView, fbWidth: Int32, fbHeight: Int32): (r: Outcome<MapView, Failure>)
    ensures v.destroyed ==> r == Outcome(v, None)
    ensures !v.destroyed ==>
              (r.Threw() <==> !(0 <= fbWidth <= MaxDimension && 0 <= fbHeight <= MaxDimension))
    ensures r.Threw() ==> r.state == v
    ensures !v.destroyed && fbWidth < 0 ==>
              r.thrown == Some(IllegalArgument("fbWidth cannot be negative."))
    ensures !v.destroyed && fbWidth >= 0 && fbHeight < 0 ==>
              r.thrown == Some(IllegalArgument("fbHeight cannot be negative."))
    ensures !v.destroyed && fbWidth >= 0 && fbHeight >= 0 && fbWidth > MaxDimension ==>
              r.thrown == Some(IllegalArgument("fbWidth cannot be greater than 65535."))
    ensures !v.destroyed && 0 <= fbWidth <= MaxDimension && fbHeight > MaxDimension ==>
              r.thrown == Some(IllegalArgument("fbHeight cannot be greater than 65535."))
    ensures !v.destroyed && !r.Threw() ==>
              r.state == v.(calls := v.calls + [FramebufferResize(v.ptr, fbWidth, fbHeight)])
  {
    if v.destroyed then Outcome(v, None)
    else if fbWidth < 0 then Outcome(v, Some(IllegalArgument("fbWidth cannot be negative.")))
    else if fbHeight < 0 then Outcome(v, Some(IllegalArgument("fbHeight cannot be negative.")))
    else if fbWidth > 65535 then Outcome(v, Some(IllegalArgument("fbWidth cannot be greater than 65535.")))
    else if fbHeight > 65535 then Outcome(v, Some(IllegalArgument("fbHeight cannot be greater than 65535.")))
    else Outcome(v.(calls := v.calls + [FramebufferResize(v.ptr, fbWidth, fbHeight)]), None)
  }

  // ---------------------------------------------------------------------------
  // Listeners and snapshots (not guarded)
  // ---------------------------------------------------------------------------

  /** `List.remove(Object)`: drop the first occurrence of `l`, keeping the order of the rest. */
  function RemoveFirst(ls: seq<Listener>, l: Listener): (r: seq<Listener>)
    ensures l !in ls ==> r == ls
    ensures l in ls ==> |r| == |ls| - 1
    decreases |ls|
  {
    if |ls| == 0 then []
    else if ls[0] == l then ls[1..]
    else [ls[0]] + RemoveFirst(ls[1..], l)
  }

  /** Removal takes out one copy of `l` if there is one, and nothing else. */
  lemma {:induction false} RemoveFirstMultiset(ls: seq<Listener>, l: Listener)
    ensures multiset(RemoveFirst(ls, l)) == multiset(ls) - multiset{l}
    decreases |ls|
  {
    if |ls| > 0 {
      var head, tail := ls[0], ls[1..];
      assert ls == [head] + tail;
      assert multiset(ls) == multiset{head} + multiset(tail);
      RemoveFirstMultiset(tail, l);
      if head != l {
        assert RemoveFirst(ls, l) == [head] + RemoveFirst(tail, l);
        assert multiset(RemoveFirst(ls, l)) == multiset{head} + multiset(RemoveFirst(tail, l));
      }
    }
  }

  /** Where the first occurrence of `l` is. */
  function IndexOf(ls: seq<Listener>, l: Listener): (i: nat)
    requires l in ls
    ensures i < |ls| && ls[i] == l
    decreases |ls|
  {
    if ls[0] == l then 0 else IndexOf(ls[1..], l) + 1
  }

  /** No earlier element is `l`. */
  lemma {:induction false} IndexOfIsFirst(ls: seq<Listener>, l: Listener)
    requires l in ls
    ensures l !in ls[..IndexOf(ls, l)]
    decreases |ls|
  {
    if ls[0] != l {
      var j := IndexOf(ls[1..], l);
      IndexOfIsFirst(ls[1..], l);
      assert ls[..j + 1] == [ls[0]] + ls[1..][..j];
    }
  }

  /** Removal takes out the first occurrence and keeps everything else, in order. */
  lemma {:induction false} RemoveFirstSplits(ls: seq<Listener>, l: Listener)
    requires l in ls
    ensures RemoveFirst(ls, l) == ls[..IndexOf(ls, l)] + ls[IndexOf(ls, l) + 1..]
    decreases |ls|
  {
    if ls[0] == l {
      assert IndexOf(ls, l) == 0;
      assert ls[..0] == [];
    } else {
      var tail := ls[1..];
      RemoveFirstSplits(tail, l);
      var j := IndexOf(tail, l);
      assert IndexOf(ls, l) == j + 1;
      assert RemoveFirst(ls, l) == [ls[0]] + RemoveFirst(tail, l);
      assert RemoveFirst(tail, l) == tail[..j] + tail[j + 1..];
      assert ls[..j + 1] == [ls[0]] + tail[..j];
      assert ls[j + 2..] == tail[j + 1..];
      calc {
        RemoveFirst(ls, l);
        [ls[0]] + (tail[..j] + tail[j + 1..]);
        ([ls[0]] + tail[..j]) + tail[j + 1..];
        ls[..j + 1] + ls[j + 2..];
      }
    }
  }

  function AddOnMapChangedListener(v: MapView, l: Listener): (r: MapView)
    ensures r.listeners == v.listeners + [l]
    ensures r.(listeners := v.listeners) == v
  {
    v.(listeners := v.listeners + [l])
  }

  function RemoveOnMapChangedListener(v: MapView, l: Listener): (r: MapView)
    ensures multiset(r.listeners) == multiset(v.listeners) - multiset{l}
    ensures l !in v.listeners ==> r.listeners == v.listeners
    ensures r.listeners == RemoveFirst(v.listeners, l)
    ensures l in v.listeners ==>
              var i := IndexOf(v.listeners, l);
              r.listeners == v.listeners[..i] + v.listeners[i + 1..]
    ensures r.(listeners := v.listeners) == v
  {
    RemoveFirstMultiset(v.listeners, l);
    if l in v.listeners then RemoveFirstSplits(v.listeners, l); v.(listeners := RemoveFirst(v.listeners, l))
    else v.(listeners := RemoveFirst(v.listeners, l))
  }

  /** Adding a listener that was not registered and removing it again restores the list. */
  lemma {:induction false} AddThenRemove(ls: seq<Listener>, l: Listener)
    requires l !in ls
    ensures RemoveFirst(ls + [l], l) == ls
    decreases |ls|
  {
    if |ls| > 0 {
      assert (ls + [l])[1..] == ls[1..] + [l];
      AddThenRemove(ls[1..], l);
      assert [ls[0]] + ls[1..] == ls;
    } else {
      assert ls + [l] == [l];
    }
  }

  /** The notifications a walk over `ls` delivers, one per listener, in list order. */
  function Notify(ls: seq<Listener>, change: int): (r: seq<(Listener, int)>)
    ensures |r| == |ls|
    ensures forall i :: 0 <= i < |r| ==> r[i] == (ls[i], change)
    decreases |ls|
  {
    if |ls| == 0 then [] else [(ls[0], change)] + Notify(ls[1..], change)
  }

  /** `onMapChanged`: every registered listener is told of the change, in registration order. */
  function NotifyMapChanged(v: MapView, change: int): (r: seq<(Listener, int)>)
    ensures |r| == |v.listeners|
    ensures forall i :: 0 <= i < |r| ==> r[i] == (v.listeners[i], change)
  {
    Notify(v.listeners, change)
  }

  /** Walking two lists one after the other delivers the two walks' notifications in turn. */
  lemma {:induction false} NotifyAppend(a: seq<Listener>, b: seq<Listener>, change: int)
    ensures Notify(a + b, change) == Notify(a, change) + Notify(b, change)
    decreases |a|
  {
    if |a| == 0 {
      assert a + b == b;
    } else {
      assert (a + b)[0] == a[0];
      assert (a + b)[1..] == a[1..] + b;
      NotifyAppend(a[1..], b, change);
    }
  }

  /** A listener added last is notified last, after everyone registered before it. */
  lemma NotifyAfterAdd(v: MapView, l: Listener, change: int)
    ensures NotifyMapChanged(AddOnMapChangedListener(v, l), change) == NotifyMapChanged(v, change) + [(l, change)]
  {
    NotifyAppend(v.listeners, [l], change);
  }

  /**
   * After removal, the walk covers the list without the first copy of `l`:
   * the listeners before that copy and those after it, in order. Removing
   * a listener that is not registered changes no notification.
   */
  lemma NotifyAfterRemove(v: MapView, l: Listener, change: int)
    ensures NotifyMapChanged(RemoveOnMapChangedListener(v, l), change) == Notify(RemoveFirst(v.listeners, l), change)
    ensures l !in v.listeners ==>
              NotifyMapChanged(RemoveOnMapChangedListener(v, l), change) == NotifyMapChanged(v, change)
    ensures l in v.listeners ==>
              var i := IndexOf(v.listeners, l);
              NotifyMapChanged(RemoveOnMapChangedListener(v, l), change)
                == Notify(v.listeners[..i], change) + Notify(v.listeners[i + 1..], change)
  {
    if l in v.listeners {
      var i := IndexOf(v.listeners, l);
      RemoveFirstSplits(v.listeners, l);
      NotifyAppend(v.listeners[..i], v.listeners[i + 1..], change);
    }
  }

  /** `addSnapshotCallback`: store the request, then schedule a snapshot and render (both guarded). */
  function AddSnapshotCallback(v: MapView, callback: Listener, bitmap: Option<nat>): (r: MapView)
    ensures r.snapshot == Some(SnapshotRequest(bitmap, callback))
    ensures v.destroyed ==> r.calls == v.calls
    ensures !v.destroyed ==> r.calls == v.calls + [Invoke(v.ptr, ScheduleTakeSnapshot), Invoke(v.ptr, Render)]
    ensures r.(snapshot := v.snapshot, calls := v.calls) == v
  {
    var withRequest := v.(snapshot := Some(SnapshotRequest(bitmap, callback)));
    Perform(Perform(withRequest, ScheduleTakeSnapshot), Render)
  }

  // ---------------------------------------------------------------------------
  // The lifecycle as a whole
  // ---------------------------------------------------------------------------

  /** Any public operation, with the native answer for a query. */
  datatype Operation =
    | Do(cmd: Command)
    | AskOp(q: Query, reply: Value)
    | RemoveAnnotationOp(id: int)
    | ResizeViewOp(width: Int32, height: Int32)
    | ResizeFramebufferOp(fbWidth: Int32, fbHeight: Int32)
    | DestroyOp
    | AddListenerOp(l: Listener)
    | RemoveListenerOp(l: Listener)
    | SnapshotOp(callback: Listener, bitmap: Option<nat>)

  predicate WellTyped(op: Operation) {
    op.AskOp? ==> Fits(op.q, op.reply)
  }

  /**
   * The state after one operation, whether or not it throws. A throwing
   * resize leaves the state as it was; a single add whose native array is
   * empty throws after its native call, which stays in the trace.
   */
  function Apply(v: MapView, op: Operation): MapView
    requires WellTyped(op)
  {
    match op
    case Do(cmd) => Perform(v, cmd)
    case AskOp(q, reply) => Ask(v, q, reply).0
    case RemoveAnnotationOp(id) => RemoveAnnotation(v, id)
    case ResizeViewOp(w, h) => ResizeView(v, w, h).state
    case ResizeFramebufferOp(w, h) => ResizeFramebuffer(v, w, h).state
    case DestroyOp => Destroy(v)
    case AddListenerOp(l) => AddOnMapChangedListener(v, l)
    case RemoveListenerOp(l) => RemoveOnMapChangedListener(v, l)
    case SnapshotOp(cb, bm) => AddSnapshotCallback(v, cb, bm)
  }

  function Run(v: MapView, ops: seq<Operation>): MapView
    requires forall i :: 0 <= i < |ops| ==> WellTyped(ops[i])
    decreases |ops|
  {
    if |ops| == 0 then v else Run(Apply(v, ops[0]), ops[1..])
  }

  /** One operation on a destroyed view: it stays destroyed and at most re-destroys the null pointer. */
  lemma ApplyDestroyed(v: MapView, op: Operation)
    requires WellTyped(op) && v.destroyed && Consistent(v)
    ensures var r := Apply(v, op);
      && r.destroyed && Consistent(r)
      && (r.calls == v.calls || r.calls == v.calls + [DestroyCall(0)])
  {
  }

  /**
   * No native call after destroy: whatever public operations follow, the
   * view stays destroyed, its earlier trace is kept, and the only native
   * call that can appear afterwards is a repeated `destroy` on the zeroed
   * pointer.
   */
  lemma {:induction false} NoNativeCallAfterDestroy(v: MapView, ops: seq<Operation>)
    requires v.destroyed && Consistent(v)
    requires forall i :: 0 <= i < |ops| ==> WellTyped(ops[i])
    ensures Run(v, ops).destroyed && Consistent(Run(v, ops))
    ensures |v.calls| <= |Run(v, ops).calls| && Run(v, ops).calls[..|v.calls|] == v.calls
    ensures forall j :: |v.calls| <= j < |Run(v, ops).calls| ==> Run(v, ops).calls[j] == DestroyCall(0)
    decreases |ops|
  {
    if |ops| > 0 {
      var next := Apply(v, ops[0]);
      ApplyDestroyed(v, ops[0]);
      NoNativeCallAfterDestroy(next, ops[1..]);
      var r := Run(next, ops[1..]);
      assert r == Run(v, ops);
      assert r.calls[..|next.calls|] == next.calls;
      assert r.calls[..|v.calls|] == next.calls[..|v.calls|];
    }
  }

  /** Without another `destroy`, a destroyed view makes no native call at all. */
  lemma {:induction false} DestroyedIsSilent(v: MapView, ops: seq<Operation>)
    requires v.destroyed && Consistent(v)
    requires forall i :: 0 <= i < |ops| ==> WellTyped(ops[i]) && !ops[i].DestroyOp?
    ensures Run(v, ops).calls == v.calls
    decreases |ops|
  {
    if |ops| > 0 {
      ApplyDestroyed(v, ops[0]);
      DestroyedIsSilent(Apply(v, ops[0]), ops[1..]);
    }
  }
}
