/** The LeftOver screen component: its `useState` cells as fields and its
    event handlers as methods. Whatever a picker, the server or the React
    runtime hands a handler arrives as a parameter; alerts, error reports and
    navigation are recorded in a ghost log. */
module LeftOver {
  import opened Wrappers
  import opened Patient
  import opened Attachments
  import opened Groups
  import opened Screen

  class Controller {
    /** The masks module the screen imports. */
    const masks: Masks

    var patient: Record
    var idDocFront: Option<Attachment>
    var idDocVerse: Option<Attachment>
    var cpf: Option<Attachment>
    var addressProof: Option<Attachment>
    var workContract: Option<Attachment>
    var loading: bool
    var groups: Option<seq<Group>>
    var selectedGroup: string
    var pickerGroup: bool

    /** Alerts shown, errors reported and `goBack` calls, oldest first. */
    ghost var events: seq<Event>

    /** The state cells as one value. */
    function Snapshot(): ScreenState
      reads this
    {
      ScreenState(patient, idDocFront, idDocVerse, cpf, addressProof, workContract,
        loading, groups, selectedGroup, pickerGroup)
    }

    /** The screen as first rendered: every cell at its `useState` default. */
    constructor (masks: Masks)
      ensures this.masks == masks
      ensures Snapshot() == Initial && events == []
    {
      this.masks := masks;
      patient := Empty;
      idDocFront, idDocVerse, cpf, addressProof, workContract := None, None, None, None, None;
      loading := false;
      groups := None;
      selectedGroup := "";
      pickerGroup := false;
      events := [];
    }

    /** `setAttachments`: store the attachment in the slot numbered `field`. */
    method SetAttachments(field: int, uri: string, fileName: string, mimeType: string)
      modifies this
      ensures Snapshot() == WithAttachment(old(Snapshot()), field, Attachment(uri, fileName, mimeType))
      ensures events == old(events)
    {
      var a := Attachment(uri, fileName, mimeType);
      if field == 0 {
        idDocFront := Some(a);
      } else if field == 1 {
        idDocVerse := Some(a);
      } else if field == 2 {
        cpf := Some(a);
      } else if field == 3 {
        addressProof := Some(a);
      } else if field == 4 {
        workContract := Some(a);
      }
    }

    /** `pickImageFromCamera` and `pickImageFromGallery`, which differ only in
        the picker they open; `result` is what that picker resolved to. */
    method PickImage(field: int, result: ImageResult)
      modifies this
      ensures Snapshot() == ImageCaptured(old(Snapshot()), field, result)
      ensures events == old(events)
    {
      if result.ImagePicked? {
        var uri := result.uri;
        var fileName := ImageName(uri);
        var mimeType := ImageMime(uri);
        SetAttachments(field, uri, fileName, mimeType);
      }
    }

    /** `pickDocument`; `result` is what the document picker resolved to. */
    method PickDocument(field: int, result: DocumentResult)
      modifies this
      ensures Snapshot() == DocumentCaptured(old(Snapshot()), field, result)
      ensures events == old(events)
    {
      if result.DocumentPicked? {
        SetAttachments(field, result.uri, result.name, PdfMime);
      }
    }

    /** The `onChange` handler of the text input for field `f`. */
    method SetField(f: Field, text: string)
      modifies this
      ensures Snapshot() == FieldEdited(old(Snapshot()), masks, f, text)
      ensures events == old(events)
    {
      patient := With(patient, f, Some(Stored(masks, f, text)));
    }

    /** The picker's `openModal`; the picker is rendered only once a group
        list is stored. */
    method OpenPicker()
      requires groups.Some?
      modifies this
      ensures Snapshot() == ModalOpened(old(Snapshot()))
      ensures events == old(events)
    {
      pickerGroup := true;
    }

    /** `closeModal`. */
    method CloseModal()
      modifies this
      ensures Snapshot() == ModalClosed(old(Snapshot()))
      ensures events == old(events)
    {
      if pickerGroup {
        pickerGroup := false;
      }
    }

    /** The modal's `setValue`, which is `setSelectedGroup`; the modal is
        rendered only once a group list is stored. */
    method SelectGroup(value: string)
      requires groups.Some?
      modifies this
      ensures Snapshot() == GroupSelected(old(Snapshot()), value)
      ensures events == old(events)
    {
      selectedGroup := value;
    }

    /** `handleSubmit` up to the await on the create call: the busy flag is
        raised and the request assembled from the current state. */
    method BeginSubmit() returns (request: Request)
      modifies this
      ensures request == SubmitRequest(old(Snapshot()), masks)
      ensures Snapshot() == SubmitStarted(old(Snapshot()))
      ensures events == old(events)
    {
      loading := true;
      var patientParsed := Normalize(patient, masks);
      request := Request(patientParsed, Category, selectedGroup, CreateFlag,
        idDocFront, idDocVerse, cpf, addressProof, workContract);
    }

    /** `handleSubmit` after the create call settles: the try, catch and
        finally blocks. */
    method FinishSubmit(outcome: CreateOutcome)
      modifies this
      ensures Snapshot() == SubmitSettled(old(Snapshot()))
      ensures events == old(events) + SubmitEvents(outcome)
    {
      match outcome {
        case Created(message) =>
          events := events + [Alert("", message)];
          events := events + [WentBack];
        case CreateFailed =>
          events := events + [Reported(SubmitFailedMessage)];
      }
      loading := false;
    }

    /** `handleSubmit` as a whole. It does not consult `loading`. */
    method Submit(outcome: CreateOutcome) returns (request: Request)
      modifies this
      ensures request == SubmitRequest(old(Snapshot()), masks)
      ensures Snapshot() == SubmitSettled(SubmitStarted(old(Snapshot())))
      ensures events == old(events) + SubmitEvents(outcome)
    {
      request := BeginSubmit();
      assert loading;
      FinishSubmit(outcome);
    }

    /** The body of the `getGroups` effect once the fetch has settled. */
    method LoadGroups(outcome: GroupsOutcome)
      modifies this
      ensures Snapshot() == GroupsLoaded(old(Snapshot()), outcome)
      ensures events == old(events) + GroupsEvents(old(Snapshot()), outcome)
    {
      match outcome {
        case Fetched(data) =>
          groups := Some(data);
          if selectedGroup == "" {
            if |data| > 0 {
              selectedGroup := IdString(data[0]);
            } else {
              events := events + [Reported(GroupsFailedMessage)];
            }
          }
        case FetchFailed =>
          events := events + [Reported(GroupsFailedMessage)];
      }
    }

    /** The "Voltar" button. */
    method Back()
      modifies this
      ensures Snapshot() == old(Snapshot())
      ensures events == old(events) + [WentBack]
    {
      events := events + [WentBack];
    }
  }

  /** A client of the controller: a photo is taken for the identity front and
      a capture for the back is cancelled. */
  method CaptureSession(masks: Masks)
  {
    var screen := new Controller(masks);
    screen.PickImage(0, ImagePicked("file:///cache/photo.jpg"));
    screen.PickImage(1, ImageCancelled);
    assert screen.idDocFront.Some? && screen.idDocVerse == None;
  }

  /** A client of the controller: a submission fails, which keeps the form
      and does not navigate; the retry succeeds and navigates back. */
  method RetrySession(masks: Masks)
  {
    var screen := new Controller(masks);
    screen.SetField(Name, "Maria");
    var before := screen.Snapshot();
    var request := screen.Submit(CreateFailed);
    assert screen.Snapshot() == before;
    assert WentBack !in screen.events;
    request := screen.Submit(Created("ok"));
    assert screen.events[|screen.events| - 1] == WentBack;
  }
}
