/** The state of the LeftOver ("Sobra de Doses") registration screen as a
    value, and what each of its event handlers does to it. The controller
    class in module LeftOver is proved against these functions. */
module Screen {
  import opened Wrappers
  import opened Text
  import opened Patient
  import opened Attachments
  import opened Groups

  /** What the screen does outside itself: an `Alert.alert(title, message)`,
      a `catchHandler(err, message)` report, or a `goBack()`. */
  datatype Event = Alert(title: string, message: string) | Reported(message: string) | WentBack

  const SubmitFailedMessage := "Não foi possível efetuar o cadastro. Tente novamente ou contate o suporte."
  const GroupsFailedMessage := "Não foi possível listar os grupos. Tente novamente ou contate o suporte."

  /** The category code the screen registers under and fetches groups for. */
  const Category := "2"
  /** The fixed flag string passed as the fourth argument of the create call. */
  const CreateFlag := "false"

  /** How `createPatientCall` settles: the server's message, or a rejection. */
  datatype CreateOutcome = Created(message: string) | CreateFailed

  /** How `getGroupsCall` settles: the list of groups, or a rejection. */
  datatype GroupsOutcome = Fetched(data: seq<Group>) | FetchFailed

  /** The arguments of `createPatientCall`, less the `undefined` fifth one. */
  datatype Request = Request(
    patient: Record, category: string, group: string, flag: string,
    idDocFront: Option<Attachment>, idDocVerse: Option<Attachment>,
    cpf: Option<Attachment>, addressProof: Option<Attachment>,
    workContract: Option<Attachment>)

  /** The screen's state cells. */
  datatype ScreenState = ScreenState(
    patient: Record,
    idDocFront: Option<Attachment>,
    idDocVerse: Option<Attachment>,
    cpf: Option<Attachment>,
    addressProof: Option<Attachment>,
    workContract: Option<Attachment>,
    loading: bool,
    groups: Option<seq<Group>>,
    selectedGroup: string,
    pickerGroup: bool)

  /** The state of a freshly mounted screen. */
  const Initial := ScreenState(Empty, None, None, None, None, None, false, None, "", false)

  const SlotCount := 5

  /** The five attachment slots, in the order of their field numbers:
      0 identity front, 1 identity back, 2 CPF or SUS card, 3 proof of
      address, 4 work contract or pay slip. */
  function Slots(s: ScreenState): (r: seq<Option<Attachment>>)
    ensures |r| == SlotCount
  {
    [s.idDocFront, s.idDocVerse, s.cpf, s.addressProof, s.workContract]
  }

  /** Everything but the attachment slots. */
  function Unslotted(s: ScreenState): ScreenState {
    s.(idDocFront := None, idDocVerse := None, cpf := None, addressProof := None, workContract := None)
  }

  /** A state is determined by its slots and the rest. */
  lemma SlotsAndRestDetermineState(s: ScreenState, t: ScreenState)
    requires Slots(s) == Slots(t) && Unslotted(s) == Unslotted(t)
    ensures s == t
  {
  }

  /** `setAttachments(field, uri, fileName, type)`: the attachment goes into the
      slot numbered `field`; any other number changes nothing. */
  function WithAttachment(s: ScreenState, field: int, a: Attachment): (r: ScreenState)
    ensures 0 <= field < SlotCount ==> Slots(r) == Slots(s)[field := Some(a)]
    ensures !(0 <= field < SlotCount) ==> r == s
    ensures Unslotted(r) == Unslotted(s)
  {
    match field
    case 0 => s.(idDocFront := Some(a))
    case 1 => s.(idDocVerse := Some(a))
    case 2 => s.(cpf := Some(a))
    case 3 => s.(addressProof := Some(a))
    case 4 => s.(workContract := Some(a))
    case _ => s
  }

  /** `pickImageFromCamera(field)` and `pickImageFromGallery(field)` once the
      picker has settled with `result`. */
  function ImageCaptured(s: ScreenState, field: int, result: ImageResult): (r: ScreenState)
    ensures result.ImageCancelled? || !(0 <= field < SlotCount) ==> r == s
    ensures result.ImagePicked? && 0 <= field < SlotCount ==>
      Slots(r) == Slots(s)[field := Some(ImageAttachment(result.uri))]
    ensures Unslotted(r) == Unslotted(s)
  {
    match result
    case ImageCancelled => s
    case ImagePicked(uri) => WithAttachment(s, field, ImageAttachment(uri))
  }

  /** `pickDocument(field)` once the document picker has settled with `result`. */
  function DocumentCaptured(s: ScreenState, field: int, result: DocumentResult): (r: ScreenState)
    ensures result.DocumentCancelled? || !(0 <= field < SlotCount) ==> r == s
    ensures result.DocumentPicked? && 0 <= field < SlotCount ==>
      Slots(r) == Slots(s)[field := Some(Attachment(result.uri, result.name, PdfMime))]
    ensures Unslotted(r) == Unslotted(s)
  {
    match result
    case DocumentCancelled => s
    case DocumentPicked(uri, name) => WithAttachment(s, field, DocumentAttachment(uri, name))
  }

  /** The `onChange` handler of the input for field `f`, given the typed text. */
  function FieldEdited(s: ScreenState, masks: Masks, f: Field, text: string): (r: ScreenState)
    ensures Get(r.patient, f) == Some(Stored(masks, f, text))
    ensures forall g :: g != f ==> Get(r.patient, g) == Get(s.patient, g)
    ensures r.(patient := s.patient) == s
  {
    s.(patient := With(s.patient, f, Some(Stored(masks, f, text))))
  }

  /** `closeModal`: the modal ends up closed whether or not it was open. */
  function ModalClosed(s: ScreenState): (r: ScreenState)
    ensures !r.pickerGroup
    ensures r.(pickerGroup := s.pickerGroup) == s
  {
    if s.pickerGroup then s.(pickerGroup := false) else s
  }

  /** The picker's `openModal`, which is `setPickerGroup(true)`. */
  function ModalOpened(s: ScreenState): (r: ScreenState)
    ensures r.pickerGroup
    ensures r.(pickerGroup := s.pickerGroup) == s
  {
    s.(pickerGroup := true)
  }

  /** The modal's `setValue`, which is `setSelectedGroup(value)`. */
  function GroupSelected(s: ScreenState, value: string): (r: ScreenState)
    ensures r.selectedGroup == value
    ensures r.(selectedGroup := s.selectedGroup) == s
  {
    s.(selectedGroup := value)
  }

  /** Closing the modal twice is closing it once. */
  lemma ModalClosedIdempotent(s: ScreenState)
    ensures ModalClosed(ModalClosed(s)) == ModalClosed(s)
  {
  }

  /** The picker's label: nothing while no group list has been stored. */
  function PickerLabel(s: ScreenState): (r: Option<string>)
    ensures r.Some? <==> (s.groups.Some? &&
      exists i :: 0 <= i < |s.groups.value| && IdString(s.groups.value[i]) == s.selectedGroup)
    ensures r.Some? ==> exists i :: (0 <= i < |s.groups.value| &&
      IdString(s.groups.value[i]) == s.selectedGroup && r.value == s.groups.value[i].group &&
      forall j :: 0 <= j < i ==> IdString(s.groups.value[j]) != s.selectedGroup)
  {
    match s.groups
    case None => None
    case Some(gs) => Label(gs, s.selectedGroup)
  }

  /** `patientParsed` and the other arguments `handleSubmit` passes to the
      create call. */
  function SubmitRequest(s: ScreenState, masks: Masks): (r: Request)
    ensures r.patient == Normalize(s.patient, masks)
    ensures r.category == Category && r.group == s.selectedGroup && r.flag == CreateFlag
    ensures [r.idDocFront, r.idDocVerse, r.cpf, r.addressProof, r.workContract] == Slots(s)
  {
    Request(Normalize(s.patient, masks), Category, s.selectedGroup, CreateFlag,
      s.idDocFront, s.idDocVerse, s.cpf, s.addressProof, s.workContract)
  }

  /** `setLoading(true)` at the start of `handleSubmit`: only the busy flag
      changes. */
  function SubmitStarted(s: ScreenState): (r: ScreenState)
    ensures r.loading
    ensures r.(loading := s.loading) == s
  {
    s.(loading := true)
  }

  /** The `finally` block of `handleSubmit`: only the busy flag changes, on
      either outcome. */
  function SubmitSettled(s: ScreenState): (r: ScreenState)
    ensures !r.loading
    ensures r.(loading := s.loading) == s
  {
    s.(loading := false)
  }

  /** Starting and settling a submission leaves every cell but the busy flag
      as it was, so a failed submission loses none of the form. */
  lemma SubmitKeepsForm(s: ScreenState)
    ensures SubmitSettled(SubmitStarted(s)) == s.(loading := false)
    ensures SubmitSettled(SubmitStarted(s)).patient == s.patient
    ensures Slots(SubmitSettled(SubmitStarted(s))) == Slots(s)
  {
  }

  /** What `handleSubmit` shows and where it goes once the create call settles:
      on success the server's message verbatim, then back; on failure the
      fixed message and no navigation. */
  function SubmitEvents(outcome: CreateOutcome): (r: seq<Event>)
    ensures outcome.Created? ==>
      |r| == 2 && r[0] == Alert("", outcome.message) && r[|r| - 1] == WentBack
    ensures outcome.CreateFailed? ==> r == [Reported(SubmitFailedMessage)]
  {
    match outcome
    case Created(message) => [Alert("", message), WentBack]
    case CreateFailed => [Reported(SubmitFailedMessage)]
  }

  /** The state after the `getGroups` effect settles with `outcome`. Indexing an
      empty list throws in the source after `setGroups` has run, so the list is
      stored and the selection stays empty. */
  function GroupsLoaded(s: ScreenState, outcome: GroupsOutcome): (r: ScreenState)
    ensures outcome.FetchFailed? ==> r == s
    ensures outcome.Fetched? ==> r.groups == Some(outcome.data)
    ensures outcome.Fetched? && s.selectedGroup == "" && |outcome.data| > 0 ==>
      r.selectedGroup == IdString(outcome.data[0])
    ensures s.selectedGroup != "" || outcome.FetchFailed? || |outcome.data| == 0 ==>
      r.selectedGroup == s.selectedGroup
    ensures r.(groups := s.groups, selectedGroup := s.selectedGroup) == s
  {
    match outcome
    case FetchFailed => s
    case Fetched(data) =>
      var stored := s.(groups := Some(data));
      if s.selectedGroup == "" && |data| > 0 then stored.(selectedGroup := IdString(data[0]))
      else stored
  }

  /** What the `getGroups` effect reports: the fixed message on a rejected
      fetch, and on an empty list when nothing was selected yet. */
  function GroupsEvents(s: ScreenState, outcome: GroupsOutcome): (r: seq<Event>)
    ensures r == [] || r == [Reported(GroupsFailedMessage)]
    ensures r != [] <==> outcome.FetchFailed? || (s.selectedGroup == "" && |outcome.data| == 0)
  {
    match outcome
    case FetchFailed => [Reported(GroupsFailedMessage)]
    case Fetched(data) =>
      if s.selectedGroup == "" && |data| == 0 then [Reported(GroupsFailedMessage)] else []
  }

  // ---------------------------------------------------------------------------
  // Properties of the handlers

  /** A capture into slot `field` and a second capture into the same slot
      leave only the second attachment. */
  lemma RecaptureOverwrites(s: ScreenState, field: int, a: Attachment, b: Attachment)
    ensures WithAttachment(WithAttachment(s, field, a), field, b) == WithAttachment(s, field, b)
  {
  }

  /** Captures into two different slots do not interfere. */
  lemma CapturesCommute(s: ScreenState, i: int, a: Attachment, j: int, b: Attachment)
    requires i != j
    ensures WithAttachment(WithAttachment(s, i, a), j, b) == WithAttachment(WithAttachment(s, j, b), i, a)
  {
    var lhs := WithAttachment(WithAttachment(s, i, a), j, b);
    var rhs := WithAttachment(WithAttachment(s, j, b), i, a);
    assert Slots(lhs) == Slots(rhs);
    SlotsAndRestDetermineState(lhs, rhs);
  }

  /** A successful camera or library capture stores the captured image in
      exactly the chosen slot. */
  lemma ImageCaptureStores(s: ScreenState, field: int, uri: string, j: nat)
    requires 0 <= field < SlotCount && j < SlotCount
    ensures var r := ImageCaptured(s, field, ImagePicked(uri));
      Slots(r)[j] == (if j == field then Some(ImageAttachment(uri)) else Slots(s)[j]) &&
      Unslotted(r) == Unslotted(s)
  {
  }

  /** A successful document capture stores the picker's uri and display name
      with the PDF type, in exactly the chosen slot. */
  lemma DocumentCaptureStores(s: ScreenState, field: int, uri: string, name: string, j: nat)
    requires 0 <= field < SlotCount && j < SlotCount
    ensures var r := DocumentCaptured(s, field, DocumentPicked(uri, name));
      Slots(r)[j] == (if j == field then Some(Attachment(uri, name, PdfMime)) else Slots(s)[j]) &&
      Unslotted(r) == Unslotted(s)
  {
  }

  /** A cancelled capture, of either kind, changes nothing, so a slot filled
      earlier keeps its attachment. */
  lemma CancelledCaptureKeepsSlot(s: ScreenState, field: int, uri: string)
    requires 0 <= field < SlotCount
    ensures ImageCaptured(s, field, ImageCancelled) == s
    ensures DocumentCaptured(s, field, DocumentCancelled) == s
    ensures var filled := ImageCaptured(s, field, ImagePicked(uri));
      Slots(ImageCaptured(filled, field, ImageCancelled))[field] == Some(ImageAttachment(uri))
  {
  }

  /** After a successful fetch from an empty selection, the picker shows the
      first group's name. */
  lemma FirstLoadLabelsFirstGroup(s: ScreenState, data: seq<Group>)
    requires s.selectedGroup == "" && |data| > 0
    ensures GroupsLoaded(s, Fetched(data)).selectedGroup == IdString(data[0])
    ensures PickerLabel(GroupsLoaded(s, Fetched(data))) == Some(data[0].group)
    ensures GroupsEvents(s, Fetched(data)) == []
  {
  }

  /** No group can be selected before the list has loaded: the picker and its
      modal render only under `groups &&`, and the only other writer of the
      selection is the load itself. */
  predicate NoSelectionBeforeLoad(s: ScreenState) {
    s.groups.None? ==> s.selectedGroup == ""
  }

  lemma InitialHasNoSelection()
    ensures NoSelectionBeforeLoad(Initial)
  {
  }

  /** Captures keep the invariant. */
  lemma CapturesKeepNoSelectionBeforeLoad(s: ScreenState, field: int, a: Attachment,
                                          image: ImageResult, document: DocumentResult)
    requires NoSelectionBeforeLoad(s)
    ensures NoSelectionBeforeLoad(WithAttachment(s, field, a))
    ensures NoSelectionBeforeLoad(ImageCaptured(s, field, image))
    ensures NoSelectionBeforeLoad(DocumentCaptured(s, field, document))
  {
  }

  /** Every other transition keeps the invariant too; `GroupSelected` is
      reachable only once a list is stored, as the render guard makes it. */
  lemma NoSelectionBeforeLoadPreserved(s: ScreenState, masks: Masks, f: Field, text: string,
                                       outcome: GroupsOutcome, value: string)
    requires NoSelectionBeforeLoad(s)
    ensures NoSelectionBeforeLoad(FieldEdited(s, masks, f, text))
    ensures NoSelectionBeforeLoad(ModalOpened(s))
    ensures NoSelectionBeforeLoad(ModalClosed(s))
    ensures NoSelectionBeforeLoad(SubmitStarted(s))
    ensures NoSelectionBeforeLoad(SubmitSettled(s))
    ensures NoSelectionBeforeLoad(GroupsLoaded(s, outcome))
    ensures s.groups.Some? ==> NoSelectionBeforeLoad(GroupSelected(s, value))
  {
  }

  /** Reloading the groups never overrides a selection already made. */
  lemma ReloadKeepsSelection(s: ScreenState, outcome: GroupsOutcome, value: string)
    requires value != ""
    ensures GroupsLoaded(s.(selectedGroup := value), outcome).selectedGroup == value
  {
  }

  /** An empty list from the server is stored, leaves the selection empty and
      reports the fixed message, because the source reads `data[0]` after
      storing the list. */
  lemma EmptyListIsStoredThenReported(s: ScreenState)
    requires s.selectedGroup == ""
    ensures GroupsLoaded(s, Fetched([])) == s.(groups := Some([]))
    ensures GroupsEvents(s, Fetched([])) == [Reported(GroupsFailedMessage)]
    ensures PickerLabel(GroupsLoaded(s, Fetched([]))) == None
  {
  }
}
