/** The top-level frontend component: the state cells `overlays`, `rtspUrl`,
    `showSettings` and `selectedOverlay`, and the handlers that write them. */
module App {
  import opened Common
  import opened Records
  import OverlayList

  /** `loadSettings`: a truthy `rtsp_url` in the fetched settings replaces the
      current URL; an absent or empty one keeps it. */
  function LoadedUrl(current: string, fetched: Option<string>): (r: string)
    ensures Truthy(fetched) ==> r == fetched.value
    ensures !Truthy(fetched) ==> r == current
    ensures r == current || r == fetched.value
  {
    if Truthy(fetched) then fetched.value else current
  }

  class AppState {
    var overlays: seq<Overlay>
    var rtspUrl: string
    var showSettings: bool
    /** `selectedOverlay`: a copy of the record that was clicked, or `null`. */
    var selected: Option<Overlay>

    constructor()
      ensures overlays == [] && rtspUrl == "" && !showSettings && selected == None
    {
      overlays := [];
      rtspUrl := "";
      showSettings := false;
      selected := None;
    }

    /** `loadSettings` with the reply of `GET /api/settings` (its `rtsp_url` key, if any);
        a failed request is only logged. */
    method LoadSettings(reply: Reply<Option<string>>)
      modifies this`rtspUrl
      ensures reply.Ok? ==> rtspUrl == LoadedUrl(old(rtspUrl), reply.data)
      ensures reply.Failed? ==> rtspUrl == old(rtspUrl)
    {
      if reply.Ok? {
        rtspUrl := LoadedUrl(rtspUrl, reply.data);
      }
    }

    /** `loadOverlays` with the reply of `GET /api/overlays`. */
    method LoadOverlays(reply: Reply<seq<Overlay>>)
      modifies this`overlays
      ensures overlays == if reply.Ok? then reply.data else old(overlays)
    {
      if reply.Ok? {
        overlays := reply.data;
      }
    }

    method HandleOverlayCreate(o: Overlay)
      modifies this`overlays
      ensures overlays == OverlayList.Append(old(overlays), o)
    {
      overlays := OverlayList.Append(overlays, o);
    }

    method HandleOverlayUpdate(u: Overlay)
      modifies this`overlays
      ensures overlays == OverlayList.ReplaceById(old(overlays), u)
    {
      overlays := OverlayList.ReplaceById(overlays, u);
    }

    method HandleOverlayDelete(id: string)
      modifies this`overlays
      ensures overlays == OverlayList.RemoveById(old(overlays), id)
    {
      overlays := OverlayList.RemoveById(overlays, id);
    }

    method HandleRtspUrlChange(url: string)
      modifies this`rtspUrl
      ensures rtspUrl == url
    {
      rtspUrl := url;
    }

    /** `onOverlaySelect`, i.e. `setSelectedOverlay`. */
    method SelectOverlay(o: Option<Overlay>)
      modifies this`selected
      ensures selected == o
    {
      selected := o;
    }

    /** The header's settings button. */
    method ToggleSettings()
      modifies this`showSettings
      ensures showSettings == !old(showSettings)
    {
      showSettings := !showSettings;
    }
  }
}
