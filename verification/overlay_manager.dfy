/** The overlay manager panel: the create form (its data and visibility), and the
    create, delete and content-edit handlers. Each handler runs to completion with
    the reply its request receives; the confirmation dialog's answer is an input. */
module Manager {
  import opened Common
  import opened Records
  import OverlayList
  import App

  /** The create form's state, which is also the body of `POST /api/overlays`. */
  datatype FormData = FormData(kind: string, content: string, position: Position, size: Size)

  /** The form's initial value, restored after every successful create. */
  const DefaultForm: FormData := FormData("text", "", Position(100, 100), Size(200, 50))

  const CreateFallback: string := "Failed to create overlay"
  const DeleteFallback: string := "Failed to delete overlay"

  /** `{...overlay, content: newContent}`. */
  function WithContent(o: Overlay, content: string): (r: Overlay)
    ensures r.content == content
    ensures r.id == o.id && r.kind == o.kind && r.position == o.position && r.size == o.size
    ensures r.createdAt == o.createdAt && r.updatedAt == o.updatedAt
  {
    o.(content := content)
  }

  class OverlayManager {
    /** The parent's state: the `overlays` and `selectedOverlay` props and the callbacks. */
    const app: App.AppState
    var showCreateForm: bool
    var formData: FormData

    constructor(app: App.AppState)
      ensures this.app == app && !showCreateForm && formData == DefaultForm
    {
      this.app := app;
      showCreateForm := false;
      formData := DefaultForm;
    }

    /** The "+ Add Overlay" / "Cancel" button. */
    method ToggleCreateForm()
      modifies this`showCreateForm
      ensures showCreateForm == !old(showCreateForm)
    {
      showCreateForm := !showCreateForm;
    }

    /** The type selector. */
    method SetFormKind(kind: string)
      modifies this`formData
      ensures formData == old(formData).(kind := kind)
    {
      formData := formData.(kind := kind);
    }

    /** The content field. */
    method SetFormContent(content: string)
      modifies this`formData
      ensures formData == old(formData).(content := content)
    {
      formData := formData.(content := content);
    }

    /** The "Initial Position X" field. */
    method SetFormX(x: int)
      modifies this`formData
      ensures formData == old(formData).(position := Position(x, old(formData).position.y))
    {
      formData := formData.(position := formData.position.(x := x));
    }

    /** The "Initial Position Y" field. */
    method SetFormY(y: int)
      modifies this`formData
      ensures formData == old(formData).(position := Position(old(formData).position.x, y))
    {
      formData := formData.(position := formData.position.(y := y));
    }

    /** The "Width" field. */
    method SetFormWidth(width: int)
      modifies this`formData
      ensures formData == old(formData).(size := Size(width, old(formData).size.height))
    {
      formData := formData.(size := formData.size.(width := width));
    }

    /** The "Height" field. */
    method SetFormHeight(height: int)
      modifies this`formData
      ensures formData == old(formData).(size := Size(old(formData).size.width, height))
    {
      formData := formData.(size := formData.size.(height := height));
    }

    /** `handleCreateOverlay`: POSTs the form. On success the returned record is
        appended, the form reset and hidden; on failure only an alert is shown. */
    method HandleCreateOverlay(reply: Reply<Overlay>) returns (sent: FormData, alert: Option<string>)
      modifies this`formData, this`showCreateForm, app`overlays
      ensures sent == old(formData)
      ensures reply.Ok? ==>
        && app.overlays == OverlayList.Append(old(app.overlays), reply.data)
        && formData == DefaultForm && !showCreateForm && alert.None?
      ensures reply.Failed? ==>
        && app.overlays == old(app.overlays)
        && formData == old(formData) && showCreateForm == old(showCreateForm)
        && alert == Some(FailureAlert("Failed to create overlay", reply.error, CreateFallback))
    {
      sent := formData;
      match reply {
        case Ok(created) =>
          app.HandleOverlayCreate(created);
          formData := DefaultForm;
          showCreateForm := false;
          alert := None;
        case Failed(e) =>
          alert := Some(FailureAlert("Failed to create overlay", e, CreateFallback));
      }
    }

    /** `handleDeleteOverlay`: nothing happens unless the confirmation is accepted.
        A successful DELETE removes the overlay and clears the selection exactly when
        the selected overlay has that id; a failure only shows an alert. */
    method HandleDeleteOverlay(id: string, confirmed: bool, reply: Reply<()>) returns (sent: bool, alert: Option<string>)
      modifies app`overlays, app`selected
      ensures sent == confirmed
      ensures !confirmed ==> app.overlays == old(app.overlays) && app.selected == old(app.selected) && alert.None?
      ensures confirmed && reply.Ok? ==>
        && app.overlays == OverlayList.RemoveById(old(app.overlays), id)
        && app.selected == (if old(app.selected).Some? && old(app.selected).value.id == id then None
                            else old(app.selected))
        && alert.None?
      ensures confirmed && reply.Failed? ==>
        && app.overlays == old(app.overlays) && app.selected == old(app.selected)
        && alert == Some(FailureAlert("Failed to delete overlay", reply.error, DeleteFallback))
    {
      sent := confirmed;
      alert := None;
      if confirmed {
        match reply {
          case Ok(_) =>
            app.HandleOverlayDelete(id);
            if app.selected.Some? && app.selected.value.id == id {
              app.SelectOverlay(None);
            }
          case Failed(e) =>
            alert := Some(FailureAlert("Failed to delete overlay", e, DeleteFallback));
        }
      }
    }

    /** `handleUpdateContent` (on every change of an item's content field): an
        unknown id sends nothing; otherwise the stored record with the new content is
        PUT and, on success, the returned record replaces it. Failures are swallowed. */
    method HandleUpdateContent(id: string, content: string, reply: Reply<Overlay>) returns (sent: Option<Overlay>)
      modifies app`overlays
      ensures OverlayList.FindById(old(app.overlays), id).None? ==> sent.None?
      ensures OverlayList.FindById(old(app.overlays), id).Some? ==>
        sent == Some(WithContent(OverlayList.FindById(old(app.overlays), id).value, content))
      ensures app.overlays
              == if sent.Some? && reply.Ok? then OverlayList.ReplaceById(old(app.overlays), reply.data)
                 else old(app.overlays)
    {
      var found := OverlayList.FindById(app.overlays, id);
      sent := None;
      if found.Some? {
        sent := Some(WithContent(found.value, content));
        if reply.Ok? {
          app.HandleOverlayUpdate(reply.data);
        }
      }
    }
  }
}
