/**
 * The admin dashboard of open-forum events: a form that creates a new
 * event, optionally imported from Engage, or edits the selected one; its
 * list of custom questions is edited in place, and the save request is a
 * PUT for a selected event and a POST otherwise.
 */
module ForumDashboard {
  import opened Util

  /** The form fields; dates are the text of the datetime inputs, "" when empty. */
  datatype EventForm = EventForm(title: string, description: string, eventDate: string, location: string,
                                 ratingUntil: string, customQuestions: seq<string>, engageEventId: string,
                                 staffHost: string)

  /** The request body; the host and the Engage link are present only when set. */
  datatype Payload = Payload(title: string, description: string, eventDate: string, location: string,
                             ratingUntil: string, customQuestions: seq<string>, staffHost: Option<string>,
                             engageEventId: Option<string>)

  datatype Request = Request(httpMethod: string, url: string, payload: Payload)

  /** An event offered by the Engage import. */
  datatype EngageEvent = EngageEvent(name: string, description: string, location: string, start: string, detailsUrl: string)

  /** An event as the server returns it for editing. */
  datatype ForumEvent = ForumEvent(title: string, description: string, eventDate: string, location: string,
                                   ratingUntil: string, customQuestions: seq<string>, staffHost: string,
                                   engageEventId: string)

  const EmptyForm := EventForm("", "", "", "", "", [], "", "")

  // =====================================================================
  // Custom questions
  // =====================================================================

  /** Typing into question `index`: the copied list with that one entry replaced. */
  function EditQuestion(qs: seq<string>, index: nat, text: string): (r: seq<string>)
    requires index < |qs|
    ensures |r| == |qs| && r[index] == text
    ensures forall j :: 0 <= j < |qs| && j != index ==> r[j] == qs[j]
  {
    qs[index := text]
  }

  /** `customQuestions.filter((_, i) => i !== index)`. */
  function WithoutIndex(qs: seq<string>, index: int): seq<string>
    decreases |qs|
  {
    if qs == [] then []
    else WithoutIndex(qs[..|qs| - 1], index) + (if |qs| - 1 != index then [qs[|qs| - 1]] else [])
  }

  /** The filter removes exactly the entry at `index` and keeps the rest in order; any other index removes nothing. */
  lemma {:induction false} WithoutIndexMeaning(qs: seq<string>, index: int)
    ensures 0 <= index < |qs| ==> WithoutIndex(qs, index) == RemoveAt(qs, index)
    ensures !(0 <= index < |qs|) ==> WithoutIndex(qs, index) == qs
    decreases |qs|
  {
    if qs != [] {
      var init := qs[..|qs| - 1];
      WithoutIndexMeaning(init, index);
      assert qs == init + [qs[|qs| - 1]];
      if 0 <= index < |qs| - 1 {
        assert RemoveAt(qs, index) == RemoveAt(init, index) + [qs[|qs| - 1]];
      } else if index == |qs| - 1 {
        assert RemoveAt(qs, index) == init;
      }
    }
  }

  /** "+ Add Question": one empty question at the end. */
  function AddQuestion(qs: seq<string>): (r: seq<string>)
    ensures |r| == |qs| + 1 && r[..|qs|] == qs && r[|qs|] == ""
  {
    qs + [""]
  }

  /** Adding a question and removing it again gives back the list. */
  lemma AddThenRemoveRestores(qs: seq<string>)
    ensures WithoutIndex(AddQuestion(qs), |qs|) == qs
  {
    WithoutIndexMeaning(AddQuestion(qs), |qs|);
    assert AddQuestion(qs)[..|qs|] == qs;
  }

  // =====================================================================
  // Form reset and the save request
  // =====================================================================

  /** `resetForm`: every field is emptied except the staff host. */
  function ResetForm(f: EventForm): (r: EventForm)
    ensures r.staffHost == f.staffHost
    ensures r.(staffHost := "") == EmptyForm
  {
    EmptyForm.(staffHost := f.staffHost)
  }

  lemma ResetIdempotent(f: EventForm)
    ensures ResetForm(ResetForm(f)) == ResetForm(f)
  {
  }

  /**
   * `handleSubmit`'s request. `toIso` stands for `new Date(s).toISOString()`,
   * None where that throws on an unparseable date, in which case no request
   * is made.
   */
  function SaveRequest(f: EventForm, selectedEvent: string, toIso: string -> Option<string>): (r: Option<Request>)
    ensures r.None? <==> toIso(f.eventDate).None? || toIso(f.ratingUntil).None?
    ensures r.Some? ==>
      && (selectedEvent != "" ==> r.value.httpMethod == "PUT" && r.value.url == "/api/openforum/" + selectedEvent)
      && (selectedEvent == "" ==> r.value.httpMethod == "POST" && r.value.url == "/api/openforum")
      && r.value.payload.eventDate == toIso(f.eventDate).value && r.value.payload.ratingUntil == toIso(f.ratingUntil).value
      && r.value.payload.customQuestions == f.customQuestions
      && (r.value.payload.staffHost.Some? <==> f.staffHost != "")
      && (r.value.payload.engageEventId.Some? <==> f.engageEventId != "")
      && (r.value.payload.staffHost.Some? ==> r.value.payload.staffHost.value == f.staffHost)
      && (r.value.payload.engageEventId.Some? ==> r.value.payload.engageEventId.value == f.engageEventId)
  {
    var eventDate := toIso(f.eventDate);
    var ratingUntil := toIso(f.ratingUntil);
    if eventDate.None? || ratingUntil.None? then None
    else
      var payload := Payload(f.title, f.description, eventDate.value, f.location, ratingUntil.value, f.customQuestions,
                             if f.staffHost != "" then Some(f.staffHost) else None,
                             if f.engageEventId != "" then Some(f.engageEventId) else None);
      Some(if selectedEvent != "" then Request("PUT", "/api/openforum/" + selectedEvent, payload)
           else Request("POST", "/api/openforum", payload))
  }

  /** After a reset the event is no longer linked to Engage, and the host chosen before is still sent. */
  lemma ResetUnlinksEngage(f: EventForm, selectedEvent: string, toIso: string -> Option<string>)
    requires SaveRequest(ResetForm(f), selectedEvent, toIso).Some?
    ensures SaveRequest(ResetForm(f), selectedEvent, toIso).value.payload.engageEventId.None?
    ensures SaveRequest(ResetForm(f), selectedEvent, toIso).value.payload.staffHost == if f.staffHost != "" then Some(f.staffHost) else None
    ensures SaveRequest(ResetForm(f), selectedEvent, toIso).value.payload.customQuestions == []
  {
  }

  // =====================================================================
  // Dashboard state
  // =====================================================================

  class Dashboard {
    var isEditing: bool
    var isCreatingNew: bool
    var selectedEvent: string
    var isEngagePopupOpen: bool
    var isEngageLoading: bool
    var form: EventForm

    constructor ()
      ensures !isEditing && !isCreatingNew && selectedEvent == "" && !isEngagePopupOpen && !isEngageLoading
      ensures form == EmptyForm
    {
      isEditing := false;
      isCreatingNew := false;
      selectedEvent := "";
      isEngagePopupOpen := false;
      isEngageLoading := false;
      form := EmptyForm;
    }

    /** "+ Add New Event": a fresh form that creates. */
    method AddNewEvent()
      modifies this
      ensures !isEditing && isCreatingNew && selectedEvent == "" && form == ResetForm(old(form))
      ensures isEngagePopupOpen == old(isEngagePopupOpen) && isEngageLoading == old(isEngageLoading)
    {
      isEditing := false;
      isCreatingNew := true;
      selectedEvent := "";
      form := ResetForm(form);
    }

    /** Choosing an event in the list selects it, and a real choice opens the editor. */
    method SelectEvent(id: string)
      modifies this
      ensures selectedEvent == id && isEditing == (id != "" || old(isEditing))
      ensures isCreatingNew == old(isCreatingNew) && form == old(form)
      ensures isEngagePopupOpen == old(isEngagePopupOpen) && isEngageLoading == old(isEngageLoading)
    {
      selectedEvent := id;
      if id != "" {
        isEditing := true;
      }
    }

    /** The selected event arrived: the form shows it; `toLocal` is `toDatetimeLocal`. */
    method EventLoaded(e: ForumEvent, toLocal: string -> string)
      modifies this
      ensures form == EventForm(e.title, e.description, toLocal(e.eventDate), e.location, toLocal(e.ratingUntil),
                                e.customQuestions, e.engageEventId, e.staffHost)
      ensures isEditing == old(isEditing) && isCreatingNew == old(isCreatingNew) && selectedEvent == old(selectedEvent)
      ensures isEngagePopupOpen == old(isEngagePopupOpen) && isEngageLoading == old(isEngageLoading)
    {
      form := EventForm(e.title, e.description, toLocal(e.eventDate), e.location, toLocal(e.ratingUntil),
                        e.customQuestions, e.engageEventId, e.staffHost);
    }

    /** "Back": the list again, nothing selected, the form reset. */
    method Back()
      modifies this
      ensures !isEditing && !isCreatingNew && selectedEvent == "" && form == ResetForm(old(form))
      ensures isEngagePopupOpen == old(isEngagePopupOpen) && isEngageLoading == old(isEngageLoading)
    {
      isEditing := false;
      isCreatingNew := false;
      selectedEvent := "";
      form := ResetForm(form);
    }

    method OpenEngageImport()
      modifies this
      ensures isEngagePopupOpen && isEngageLoading
      ensures isEditing == old(isEditing) && isCreatingNew == old(isCreatingNew) && selectedEvent == old(selectedEvent)
      ensures form == old(form)
    {
      isEngageLoading := true;
      isEngagePopupOpen := true;
    }

    /** Importing an Engage event fills the fields it has, links it, and closes the popup. */
    method ImportEngageEvent(e: EngageEvent, toLocal: string -> string)
      modifies this
      ensures form == old(form).(engageEventId := e.detailsUrl, title := e.name, description := e.description,
                                 location := e.location, eventDate := toLocal(e.start))
      ensures !isEngagePopupOpen && isEngageLoading == old(isEngageLoading)
      ensures isEditing == old(isEditing) && isCreatingNew == old(isCreatingNew) && selectedEvent == old(selectedEvent)
    {
      form := form.(engageEventId := e.detailsUrl, title := e.name, description := e.description,
                    location := e.location, eventDate := toLocal(e.start));
      isEngagePopupOpen := false;
    }

    method EditCustomQuestion(index: nat, text: string)
      requires index < |form.customQuestions|
      modifies this
      ensures form == old(form).(customQuestions := EditQuestion(old(form.customQuestions), index, text))
      ensures isEditing == old(isEditing) && isCreatingNew == old(isCreatingNew) && selectedEvent == old(selectedEvent)
      ensures isEngagePopupOpen == old(isEngagePopupOpen) && isEngageLoading == old(isEngageLoading)
    {
      var updated := form.customQuestions;
      updated := updated[index := text];
      form := form.(customQuestions := updated);
    }

    method RemoveCustomQuestion(index: nat)
      modifies this
      ensures form == old(form).(customQuestions := WithoutIndex(old(form.customQuestions), index))
      ensures isEditing == old(isEditing) && isCreatingNew == old(isCreatingNew) && selectedEvent == old(selectedEvent)
      ensures isEngagePopupOpen == old(isEngagePopupOpen) && isEngageLoading == old(isEngageLoading)
    {
      form := form.(customQuestions := WithoutIndex(form.customQuestions, index));
    }

    method AddCustomQuestion()
      modifies this
      ensures form == old(form).(customQuestions := AddQuestion(old(form.customQuestions)))
      ensures isEditing == old(isEditing) && isCreatingNew == old(isCreatingNew) && selectedEvent == old(selectedEvent)
      ensures isEngagePopupOpen == old(isEngagePopupOpen) && isEngageLoading == old(isEngageLoading)
    {
      form := form.(customQuestions := form.customQuestions + [""]);
    }

    /** Choosing a staff host; a real choice also switches the page to editing. */
    method ChooseStaffHost(host: string)
      modifies this
      ensures form == old(form).(staffHost := host) && isEditing == (host != "" || old(isEditing))
      ensures isCreatingNew == old(isCreatingNew) && selectedEvent == old(selectedEvent)
      ensures isEngagePopupOpen == old(isEngagePopupOpen) && isEngageLoading == old(isEngageLoading)
    {
      form := form.(staffHost := host);
      if host != "" {
        isEditing := true;
      }
    }

    /**
     * `handleSubmit`: the request, if the dates convert; when the server
     * accepts it (`saved`) the form is reset and the list shown again.
     */
    method Save(toIso: string -> Option<string>, saved: bool) returns (r: Option<Request>)
      modifies this
      ensures r == SaveRequest(old(form), old(selectedEvent), toIso)
      ensures r.Some? && saved ==>
        !isEditing && !isCreatingNew && selectedEvent == "" && form == ResetForm(old(form))
      ensures !(r.Some? && saved) ==>
        isEditing == old(isEditing) && isCreatingNew == old(isCreatingNew) && selectedEvent == old(selectedEvent) && form == old(form)
      ensures isEngagePopupOpen == old(isEngagePopupOpen) && isEngageLoading == old(isEngageLoading)
    {
      r := SaveRequest(form, selectedEvent, toIso);
      if r.Some? && saved {
        form := ResetForm(form);
        isEditing := false;
        isCreatingNew := false;
        selectedEvent := "";
      }
    }

    /** `handleDelete`: the address of the DELETE request, only after confirmation; a successful delete resets like a save. */
    method Delete(confirmed: bool, deleted: bool) returns (deleteUrl: Option<string>)
      modifies this
      ensures confirmed <==> deleteUrl.Some?
      ensures deleteUrl.Some? ==> deleteUrl.value == "/api/openforum/" + old(selectedEvent)
      ensures confirmed && deleted ==> !isEditing && !isCreatingNew && selectedEvent == "" && form == ResetForm(old(form))
      ensures !(confirmed && deleted) ==>
        isEditing == old(isEditing) && isCreatingNew == old(isCreatingNew) && selectedEvent == old(selectedEvent) && form == old(form)
      ensures isEngagePopupOpen == old(isEngagePopupOpen) && isEngageLoading == old(isEngageLoading)
    {
      if !confirmed {
        return None;
      }
      deleteUrl := Some("/api/openforum/" + selectedEvent);
      if deleted {
        form := ResetForm(form);
        isEditing := false;
        isCreatingNew := false;
        selectedEvent := "";
      }
    }
  }
}
