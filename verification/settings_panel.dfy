/** The settings panel: a local copy of the stream URL that the input edits, and
    the save handler, which rejects a blank URL, sends the URL, and reports the
    outcome. Saving is split at the `await`: `ClickSave` issues the request and
    `FinishSave` handles its reply, so the `saving` flag is visible in between. */
module Settings {
  import opened Common
  import Strings
  import App

  const BlankUrlAlert: string := "Please enter an RTSP URL"
  const SavedAlert: string := "Settings saved successfully!"
  const SaveFallback: string := "Failed to save settings"

  /** `!url.trim()`: the URL is empty or all whitespace. */
  predicate IsBlank(url: string)
    ensures IsBlank(url) <==> forall i :: 0 <= i < |url| ==> Strings.IsJsWhitespace(url[i])
  {
    Strings.TrimEmptyIff(url);
    Strings.Trim(url) == ""
  }

  class SettingsPanel {
    /** The parent's state: the `rtspUrl` prop and `onRtspUrlChange`. */
    const app: App.AppState
    var url: string
    var saving: bool
    /** The URL the in-flight save was issued with (the value its closure captured). */
    var pending: Option<string>

    ghost predicate Valid()
      reads this
    {
      saving <==> pending.Some?
    }

    /** Mounting: the local URL starts as the parent's. */
    constructor(app: App.AppState)
      ensures Valid() && this.app == app
      ensures url == app.rtspUrl && !saving
    {
      this.app := app;
      url := app.rtspUrl;
      saving := false;
      pending := None;
    }

    /** The URL input. */
    method Input(text: string)
      modifies this`url
      ensures url == text
    {
      url := text;
    }

    /** A click on "Save Settings". The button is disabled while saving, so such a
        click does nothing. A blank URL is rejected with an alert and no request;
        otherwise `POST /api/settings` is sent with the URL exactly as typed. */
    method ClickSave() returns (request: Option<string>, alert: Option<string>)
      requires Valid()
      modifies this`saving, this`pending
      ensures Valid()
      ensures old(saving) ==> request.None? && alert.None? && saving && pending == old(pending)
      ensures !old(saving) && IsBlank(url) ==> request.None? && alert == Some(BlankUrlAlert) && !saving
      ensures !old(saving) && !IsBlank(url) ==> request == Some(url) && alert.None? && saving && pending == Some(url)
    {
      request, alert := None, None;
      var blank := IsBlank(url);
      if !saving {
        if blank {
          alert := Some(BlankUrlAlert);
        } else {
          saving := true;
          pending := Some(url);
          request := Some(url);
        }
      }
    }

    /** The reply to the in-flight save: on success the parent receives the URL the
        request was sent with; on failure it keeps its URL and an alert reports the
        error. Either way `saving` is reset. */
    method FinishSave(reply: Reply<()>) returns (alert: string)
      requires Valid() && saving
      modifies this`saving, this`pending, app`rtspUrl
      ensures Valid() && !saving
      ensures reply.Ok? ==> app.rtspUrl == old(pending).value && alert == SavedAlert
      ensures reply.Failed? ==>
        && app.rtspUrl == old(app.rtspUrl)
        && alert == FailureAlert("Failed to save settings", reply.error, SaveFallback)
    {
      match reply {
        case Ok(_) =>
          app.HandleRtspUrlChange(pending.value);
          alert := SavedAlert;
        case Failed(e) =>
          alert := FailureAlert("Failed to save settings", e, SaveFallback);
      }
      saving := false;
      pending := None;
    }
  }
}
