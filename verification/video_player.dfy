/** The video player component: the stream URL it derives, the choice between
    native HLS playback and an hls.js engine, the engine's fatal-fault recovery,
    the `isPlaying` flag, the per-overlay broken-image flags, and the drag and
    resize handlers that PUT an updated overlay. The media element and hls.js are
    inputs: two capability booleans, engine handles, and the events they raise. */
module Player {
  import opened Common
  import opened Records
  import Strings
  import OverlayList
  import App

  const NetworkErrorText: string := "Network error. Please check your RTSP URL."
  const MediaErrorText: string := "Media error. Trying to recover..."
  const FatalErrorText: string := "Fatal error. Please check your stream URL."
  const UnsupportedText: string :=
    "HLS is not supported in this browser. Please use a modern browser or provide an MP4 stream."

  /** The URL effect: an empty URL gives an empty stream URL, and the
      HLS-compatibility test picks between two branches that assign the same value. */
  function HlsUrlFor(rtspUrl: string): (r: string)
    ensures r == rtspUrl
  {
    if rtspUrl == "" then ""
    else if Strings.Contains(rtspUrl, ".m3u8") || Strings.Contains(rtspUrl, "rtsp.me")
         || Strings.IsPrefix("http", rtspUrl) then rtspUrl
    else rtspUrl
  }

  /** An hls.js instance: the source it loaded, whether `destroy()` has been called,
      and how often `startLoad()` and `recoverMediaError()` were issued on it. */
  datatype Engine = Engine(source: string, destroyed: bool, reloads: nat, mediaRecoveries: nat)

  /** The handles of the engines not yet destroyed. */
  function LiveHandles(engines: seq<Engine>): set<nat> {
    set h: nat | h < |engines| && !engines[h].destroyed
  }

  /** Every live engine is the one `hlsRef.current` holds. */
  predicate SingleOwner(engines: seq<Engine>, hlsRef: Option<nat>) {
    forall h :: 0 <= h < |engines| && !engines[h].destroyed ==> hlsRef == Some(h)
  }

  /** Under the single-owner discipline at most one engine is live. */
  lemma AtMostOneLive(engines: seq<Engine>, hlsRef: Option<nat>)
    requires SingleOwner(engines, hlsRef)
    ensures |LiveHandles(engines)| <= 1
  {
    var live := LiveHandles(engines);
    if hlsRef.Some? && hlsRef.value in live {
      assert live == {hlsRef.value};
    } else {
      assert live == {};
    }
  }

  /** `engines[h].destroy()`; destroying twice is harmless. */
  function Destroy(engines: seq<Engine>, h: nat): (r: seq<Engine>)
    requires h < |engines|
    ensures |r| == |engines| && r[h].destroyed
    ensures forall k :: 0 <= k < |r| && k != h ==> r[k] == engines[k]
    ensures LiveHandles(r) == LiveHandles(engines) - {h}
  {
    engines[h := engines[h].(destroyed := true)]
  }

  datatype PlaybackPath = NoSource | Native | HlsJs | Unsupported

  datatype FaultKind = NetworkFault | MediaFault | OtherFault

  /** How `videoRef.current.play()` ended: its promise resolved, it returned
      `undefined`, or it threw or was rejected with an error of the given name. */
  datatype PlayResult = Resolved | NoPromise | Rejected(name: string)

  datatype MediaEvent = PlayEvent | PauseEvent | EndedEvent | ErrorEvent

  /** What the overlay's handle shows. */
  datatype OverlayView = TextView(text: string) | ImageView(src: string) | ImageNotFound | NoImageUrl

  /** Rendering of one overlay: text as text; an image as "Image not found" once its
      flag is set, else the image when it has a URL, else "No image URL provided". */
  function ViewOf(o: Overlay, imageErrors: map<string, bool>): (v: OverlayView)
    ensures o.kind == "text" <==> v.TextView?
    ensures v.TextView? ==> v.text == o.content
    ensures v == ImageNotFound <==> o.kind != "text" && o.id in imageErrors && imageErrors[o.id]
    ensures v.ImageView? <==>
      o.kind != "text" && !(o.id in imageErrors && imageErrors[o.id]) && o.content != ""
    ensures v.ImageView? ==> v.src == o.content
    ensures v == NoImageUrl <==>
      o.kind != "text" && !(o.id in imageErrors && imageErrors[o.id]) && o.content == ""
  {
    if o.kind == "text" then TextView(o.content)
    else if o.id in imageErrors && imageErrors[o.id] then ImageNotFound
    else if o.content != "" then ImageView(o.content)
    else NoImageUrl
  }

  /** Once an image overlay's flag is set it shows "Image not found", whatever its
      content; the flag of one id changes no other overlay's view. */
  lemma ImageErrorView(o: Overlay, imageErrors: map<string, bool>, id: string)
    ensures o.id == id && o.kind != "text" ==> ViewOf(o, imageErrors[id := true]) == ImageNotFound
    ensures o.id != id ==> ViewOf(o, imageErrors[id := true]) == ViewOf(o, imageErrors)
  {
  }

  /** `{...overlay, position: {x, y}}`. */
  function WithPosition(o: Overlay, x: int, y: int): (r: Overlay)
    ensures r.position == Position(x, y)
    ensures r.id == o.id && r.kind == o.kind && r.content == o.content && r.size == o.size
    ensures r.createdAt == o.createdAt && r.updatedAt == o.updatedAt
  {
    o.(position := Position(x, y))
  }

  /** `{...overlay, size: {width, height}}`. */
  function WithSize(o: Overlay, width: int, height: int): (r: Overlay)
    ensures r.size == Size(width, height)
    ensures r.id == o.id && r.kind == o.kind && r.content == o.content && r.position == o.position
    ensures r.createdAt == o.createdAt && r.updatedAt == o.updatedAt
  {
    o.(size := Size(width, height))
  }

  class VideoPlayer {
    /** The parent's state: the `overlays` prop and the `onOverlayUpdate` callback. */
    const app: App.AppState
    /** `video.canPlayType('application/vnd.apple.mpegurl')` is truthy. */
    const nativeHls: bool
    /** `Hls.isSupported()`. */
    const hlsSupported: bool

    var hlsUrl: string
    /** `video.src`, as set on the native path. */
    var videoSrc: string
    var isPlaying: bool
    var error: string
    var imageErrors: map<string, bool>
    /** Every hls.js instance created so far; a handle is an index. */
    var engines: seq<Engine>
    /** `hlsRef.current`. */
    var hlsRef: Option<nat>
    /** The last run of the playback-setup effect returned a cleanup function. */
    var cleanupPending: bool

    ghost predicate Valid()
      reads this
    {
      && (hlsRef.Some? ==> hlsRef.value < |engines|)
      && SingleOwner(engines, hlsRef)
      && (forall h :: 0 <= h < |engines| && !engines[h].destroyed ==> cleanupPending)
      && (cleanupPending ==> hlsRef.Some?)
    }

    /** Mounting: the initial state, then the effects of the first renders. */
    constructor(app: App.AppState, nativeHls: bool, hlsSupported: bool)
      ensures Valid()
      ensures this.app == app && this.nativeHls == nativeHls && this.hlsSupported == hlsSupported
      ensures hlsUrl == app.rtspUrl
      ensures !isPlaying && imageErrors == map[]
      ensures error == if app.rtspUrl != "" && !nativeHls && !hlsSupported then UnsupportedText else ""
      ensures videoSrc == if app.rtspUrl != "" && nativeHls then app.rtspUrl else ""
      ensures engines
              == if app.rtspUrl != "" && !nativeHls && hlsSupported then [Engine(app.rtspUrl, false, 0, 0)] else []
      ensures |LiveHandles(engines)| <= 1
    {
      this.app := app;
      this.nativeHls := nativeHls;
      this.hlsSupported := hlsSupported;
      hlsUrl := "";
      videoSrc := "";
      isPlaying := false;
      error := "";
      imageErrors := map[];
      engines := [];
      hlsRef := None;
      cleanupPending := false;
      new;
      var _ := SyncSource();
    }

    /** A render with the parent's current `rtspUrl`: the URL effect derives the
        stream URL, and when it differs from the current one the setup effect's
        cleanup runs and then the setup itself. */
    method SyncSource() returns (path: Option<PlaybackPath>)
      requires Valid()
      modifies this`hlsUrl, this`videoSrc, this`error, this`engines, this`hlsRef, this`cleanupPending
      ensures Valid()
      ensures hlsUrl == app.rtspUrl
      ensures path.None? <==> old(hlsUrl) == app.rtspUrl
      ensures path.None? ==> videoSrc == old(videoSrc) && error == old(error)
                             && engines == old(engines) && hlsRef == old(hlsRef)
                             && cleanupPending == old(cleanupPending)
      ensures |engines| >= |old(engines)|
      ensures path.Some? ==> forall h :: 0 <= h < |old(engines)| ==> engines[h].destroyed
      ensures path.Some? ==>
        path.value == if hlsUrl == "" then NoSource
                      else if nativeHls then Native
                      else if hlsSupported then HlsJs
                      else Unsupported
      ensures path == Some(HlsJs) ==>
        && |engines| == |old(engines)| + 1
        && LiveHandles(engines) == {|engines| - 1}
        && engines[|engines| - 1].source == hlsUrl
        && hlsRef == Some(|engines| - 1)
      ensures path == Some(HlsJs) ==> engines[|engines| - 1] == Engine(hlsUrl, false, 0, 0)
      ensures path.Some? && path != Some(HlsJs) ==> LiveHandles(engines) == {} && |engines| == |old(engines)|
      ensures path == Some(NoSource) || path == Some(HlsJs) ==> videoSrc == old(videoSrc) && error == old(error)
      ensures path == Some(Unsupported) ==> videoSrc == old(videoSrc)
      ensures path == Some(Native) ==> videoSrc == hlsUrl && error == ""
      ensures path == Some(Unsupported) ==> error == UnsupportedText
      ensures |LiveHandles(engines)| <= 1
    {
      var next := HlsUrlFor(app.rtspUrl);
      if next == hlsUrl {
        path := None;
        AtMostOneLive(engines, hlsRef);
      } else {
        hlsUrl := next;
        Cleanup();
        var p := SetupPlayback();
        path := Some(p);
        AtMostOneLive(engines, hlsRef);
      }
    }

    /** The cleanup the setup effect returned on the hls.js path: destroy
        `hlsRef.current` (which is not reset). Other paths return none. */
    method Cleanup()
      requires Valid()
      modifies this`engines, this`cleanupPending
      ensures Valid() && !cleanupPending
      ensures LiveHandles(engines) == {}
      ensures |engines| == |old(engines)|
      ensures old(cleanupPending) && hlsRef.Some? ==> engines == Destroy(old(engines), hlsRef.value)
      ensures !old(cleanupPending) ==> engines == old(engines)
    {
      if cleanupPending {
        if hlsRef.Some? {
          engines := Destroy(engines, hlsRef.value);
        }
        cleanupPending := false;
      }
    }

    /** The playback-setup effect for the current `hlsUrl`. */
    method SetupPlayback() returns (path: PlaybackPath)
      requires Valid() && !cleanupPending
      modifies this`videoSrc, this`error, this`engines, this`hlsRef, this`cleanupPending
      ensures Valid()
      ensures path == NoSource <==> hlsUrl == ""
      ensures path == Native <==> hlsUrl != "" && nativeHls
      ensures path == HlsJs <==> hlsUrl != "" && !nativeHls && hlsSupported
      ensures path == Unsupported <==> hlsUrl != "" && !nativeHls && !hlsSupported
      ensures path != HlsJs ==> engines == old(engines) && hlsRef == old(hlsRef) && !cleanupPending
      ensures path == NoSource ==> videoSrc == old(videoSrc) && error == old(error)
      ensures path == Native ==> videoSrc == hlsUrl && error == ""
      ensures path == Unsupported ==> videoSrc == old(videoSrc) && error == UnsupportedText
      ensures path == HlsJs ==>
        && videoSrc == old(videoSrc) && error == old(error)
        && |engines| == |old(engines)| + 1
        && engines[..|old(engines)|]
           == (if old(hlsRef).Some? then Destroy(old(engines), old(hlsRef).value) else old(engines))
        && engines[|old(engines)|] == Engine(hlsUrl, false, 0, 0)
        && hlsRef == Some(|old(engines)|)
        && cleanupPending
        && LiveHandles(engines) == {|old(engines)|}
    {
      if hlsUrl == "" {
        path := NoSource;
      } else if nativeHls {
        path := Native;
        videoSrc := hlsUrl;
        error := "";
      } else if hlsSupported {
        path := HlsJs;
        if hlsRef.Some? {
          engines := Destroy(engines, hlsRef.value);
        }
        var handle := |engines|;
        engines := engines + [Engine(hlsUrl, false, 0, 0)];
        hlsRef := Some(handle);
        cleanupPending := true;
        assert LiveHandles(engines) == {handle};
      } else {
        path := Unsupported;
        error := UnsupportedText;
      }
    }

    /** Unmounting runs the pending cleanup. */
    method Unmount()
      requires Valid()
      modifies this`engines, this`cleanupPending
      ensures Valid() && LiveHandles(engines) == {}
    {
      Cleanup();
    }

    /** `MANIFEST_PARSED` from engine `h` clears the error. A destroyed engine has
        no listeners left and raises nothing. */
    method OnManifestParsed(h: nat)
      requires Valid()
      modifies this`error
      ensures Valid()
      ensures h in LiveHandles(engines) ==> error == ""
      ensures h !in LiveHandles(engines) ==> error == old(error)
    {
      if h < |engines| && !engines[h].destroyed {
        error := "";
      }
    }

    /** An `ERROR` event from engine `h`. Fatal network faults reload and fatal media
        faults recover in place, both keeping the engine; any other fatal fault
        destroys it. Non-fatal faults change nothing. */
    method OnEngineError(h: nat, fatal: bool, kind: FaultKind)
      requires Valid()
      modifies this`error, this`engines
      ensures Valid()
      ensures |engines| == |old(engines)|
      ensures h !in old(LiveHandles(engines)) || !fatal ==> error == old(error) && engines == old(engines)
      ensures h in old(LiveHandles(engines)) && fatal && kind == NetworkFault ==>
        && error == NetworkErrorText
        && engines == old(engines)[h := old(engines)[h].(reloads := old(engines)[h].reloads + 1)]
        && LiveHandles(engines) == old(LiveHandles(engines))
      ensures h in old(LiveHandles(engines)) && fatal && kind == MediaFault ==>
        && error == MediaErrorText
        && engines == old(engines)[h := old(engines)[h].(mediaRecoveries := old(engines)[h].mediaRecoveries + 1)]
        && LiveHandles(engines) == old(LiveHandles(engines))
      ensures h in old(LiveHandles(engines)) && fatal && kind == OtherFault ==>
        && error == FatalErrorText
        && engines == Destroy(old(engines), h)
        && LiveHandles(engines) == {}
    {
      if h < |engines| && !engines[h].destroyed && fatal {
        var e := engines[h];
        match kind {
          case NetworkFault =>
            error := NetworkErrorText;
            engines := engines[h := e.(reloads := e.reloads + 1)];
            assert LiveHandles(engines) == old(LiveHandles(engines));
          case MediaFault =>
            error := MediaErrorText;
            engines := engines[h := e.(mediaRecoveries := e.mediaRecoveries + 1)];
            assert LiveHandles(engines) == old(LiveHandles(engines));
          case OtherFault =>
            error := FatalErrorText;
            engines := Destroy(engines, h);
        }
      }
    }

    /** `handlePlay`: a resolved or absent promise sets `isPlaying`; a rejection
        resynchronises it from the element's `paused` flag and is logged unless it
        is an `AbortError` or a `NotAllowedError`. */
    method HandlePlay(result: PlayResult, pausedAfter: bool) returns (logged: bool)
      modifies this`isPlaying
      ensures !result.Rejected? ==> isPlaying && !logged
      ensures result.Rejected? ==> isPlaying == !pausedAfter
      ensures result.Rejected? ==> logged == (result.name != "AbortError" && result.name != "NotAllowedError")
    {
      match result {
        case Resolved =>
          isPlaying := true;
          logged := false;
        case NoPromise =>
          isPlaying := true;
          logged := false;
        case Rejected(name) =>
          logged := name != "AbortError" && name != "NotAllowedError";
          isPlaying := !pausedAfter;
      }
    }

    /** `handlePause`: `isPlaying` ends false whether or not `pause()` throws. */
    method HandlePause(throws: bool) returns (logged: bool)
      modifies this`isPlaying
      ensures !isPlaying && logged == throws
    {
      isPlaying := false;
      logged := throws;
    }

    /** The play/pause button: `isPlaying ? handlePause : handlePlay`. */
    method ClickPlayButton(result: PlayResult, pausedAfter: bool, pauseThrows: bool) returns (logged: bool)
      modifies this`isPlaying
      ensures old(isPlaying) ==> !isPlaying
      ensures !old(isPlaying) && !result.Rejected? ==> isPlaying
      ensures !old(isPlaying) && result.Rejected? ==> isPlaying == !pausedAfter
    {
      if isPlaying {
        logged := HandlePause(pauseThrows);
      } else {
        logged := HandlePlay(result, pausedAfter);
      }
    }

    /** The media-element listeners: `play` sets `isPlaying`; `pause`, `ended` and
        `error` clear it. */
    method OnMediaEvent(e: MediaEvent)
      modifies this`isPlaying
      ensures isPlaying <==> e == PlayEvent
    {
      isPlaying := e == PlayEvent;
    }

    /** An `<img>` load error sets that overlay's flag; no handler ever clears one. */
    method OnImageError(id: string)
      modifies this`imageErrors
      ensures imageErrors == old(imageErrors)[id := true]
    {
      imageErrors := imageErrors[id := true];
    }

    /** `handleOverlayDrag` (on drag stop), with the reply the PUT receives. */
    method HandleOverlayDrag(id: string, x: int, y: int, reply: Reply<Overlay>) returns (sent: Option<Overlay>)
      modifies app`overlays
      ensures OverlayList.FindById(old(app.overlays), id).None? ==> sent.None?
      ensures OverlayList.FindById(old(app.overlays), id).Some? ==>
        sent == Some(WithPosition(OverlayList.FindById(old(app.overlays), id).value, x, y))
      ensures app.overlays
              == if sent.Some? && reply.Ok? then OverlayList.ReplaceById(old(app.overlays), reply.data)
                 else old(app.overlays)
    {
      var found := OverlayList.FindById(app.overlays, id);
      sent := None;
      if found.Some? {
        var updated := WithPosition(found.value, x, y);
        sent := Some(updated);
        UpdateOverlay(reply);
      }
    }

    /** `handleOverlayResize` (on every resize event), with the reply the PUT receives. */
    method HandleOverlayResize(id: string, width: int, height: int, reply: Reply<Overlay>) returns (sent: Option<Overlay>)
      modifies app`overlays
      ensures OverlayList.FindById(old(app.overlays), id).None? ==> sent.None?
      ensures OverlayList.FindById(old(app.overlays), id).Some? ==>
        sent == Some(WithSize(OverlayList.FindById(old(app.overlays), id).value, width, height))
      ensures app.overlays
              == if sent.Some? && reply.Ok? then OverlayList.ReplaceById(old(app.overlays), reply.data)
                 else old(app.overlays)
    {
      var found := OverlayList.FindById(app.overlays, id);
      sent := None;
      if found.Some? {
        var updated := WithSize(found.value, width, height);
        sent := Some(updated);
        UpdateOverlay(reply);
      }
    }

    /** `updateOverlay` once its PUT has settled: the returned record goes to
        `onOverlayUpdate`; a failure is swallowed. */
    method UpdateOverlay(reply: Reply<Overlay>)
      modifies app`overlays
      ensures app.overlays
              == if reply.Ok? then OverlayList.ReplaceById(old(app.overlays), reply.data) else old(app.overlays)
    {
      if reply.Ok? {
        app.HandleOverlayUpdate(reply.data);
      }
    }
  }
}
