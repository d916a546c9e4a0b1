/** Saving an object from the admin form: the form's submit check (`AdminForm`)
    and the app's update of its object list (`ArchiveApp.handleSave`). The clock
    and the id generator are parameters. */
module Editing {
  import opened Wrappers
  import opened Text
  import opened Catalog

  /** `handleSubmit`: a title that trims to empty is rejected and nothing is saved;
      otherwise the form is saved as it stands (title untrimmed), keeping a
      non-empty `id` and `createdAt`, filling them from `freshId` and `now` when
      empty, and stamping `updatedAt` with `now`. */
  function HandleSubmit(form: ArchiveObject, now: string, freshId: string): (r: Result<ArchiveObject, string>)
    ensures r.Failure? <==> Trim(form.title) == ""
    ensures r.Failure? ==> r.error == "Title is required"
    ensures r.Success? ==>
      && (form.id != "" ==> r.value.id == form.id)
      && (form.id == "" ==> r.value.id == freshId)
      && (form.createdAt != "" ==> r.value.createdAt == form.createdAt)
      && (form.createdAt == "" ==> r.value.createdAt == now)
      && r.value.updatedAt == now
      && r.value.(id := form.id, createdAt := form.createdAt, updatedAt := form.updatedAt) == form
  {
    if Trim(form.title) == "" then
      Failure("Title is required")
    else
      Success(form.(
        id := if form.id != "" then form.id else freshId,
        createdAt := if form.createdAt != "" then form.createdAt else now,
        updatedAt := now))
  }

  /** Saving, editing and saving again keeps the identity the first save gave the
      object: the same id and creation time, with only the update time moving on. */
  lemma ResubmitKeepsIdentity(form: ArchiveObject, now1: string, id1: string, now2: string, id2: string)
    requires Trim(form.title) != "" && now1 != "" && id1 != ""
    ensures var first := HandleSubmit(form, now1, id1);
      && first.Success?
      && var second := HandleSubmit(first.value, now2, id2);
      && second.Success?
      && second.value.id == first.value.id
      && second.value.createdAt == first.value.createdAt
      && second.value.updatedAt == now2
  {
  }

  /** Which screen the app shows. */
  datatype View = BrowseView | DetailView | AddView | EditView

  /** The app state `handleSave` reads and writes. */
  datatype AppState = AppState(
    objects: seq<ArchiveObject>,
    view: View,
    selected: Option<ArchiveObject>,
    editing: Option<ArchiveObject>)

  /** `handleSave`: when editing, every object with the saved id is replaced by the
      saved object; when adding, it is appended. Either way the saved object is
      shown in the detail view and editing ends. */
  function HandleSave(st: AppState, saved: ArchiveObject): (r: AppState)
    ensures r.view == DetailView && r.selected == Some(saved) && r.editing == None
    ensures st.editing.Some? ==>
      && |r.objects| == |st.objects|
      && forall i :: 0 <= i < |r.objects| ==>
           r.objects[i] == (if st.objects[i].id == saved.id then saved else st.objects[i])
    ensures st.editing.None? ==>
      && |r.objects| == |st.objects| + 1
      && r.objects[..|st.objects|] == st.objects
      && r.objects[|st.objects|] == saved
  {
    var objects :=
      if st.editing.Some? then
        seq(|st.objects|, i requires 0 <= i < |st.objects| =>
          if st.objects[i].id == saved.id then saved else st.objects[i])
      else
        st.objects + [saved];
    AppState(objects, DetailView, Some(saved), None)
  }

  /** No two objects share an id. */
  predicate UniqueIds(objects: seq<ArchiveObject>) {
    forall i, j :: 0 <= i < j < |objects| ==> objects[i].id != objects[j].id
  }

  /** Saving keeps ids unique: an edit never changes the set of ids, and an add
      does when the new id is not taken. */
  lemma HandleSaveKeepsIdsUnique(st: AppState, saved: ArchiveObject)
    requires UniqueIds(st.objects)
    requires st.editing.None? ==> forall o :: o in st.objects ==> o.id != saved.id
    ensures UniqueIds(HandleSave(st, saved).objects)
  {
    var r := HandleSave(st, saved).objects;
    if st.editing.None? {
      forall i, j | 0 <= i < j < |r| ensures r[i].id != r[j].id {
        if j == |st.objects| {
          assert r[i] == st.objects[i] && r[i] in st.objects;
        } else {
          assert r[i] == st.objects[i] && r[j] == st.objects[j];
        }
      }
    }
  }

  /** After a save the object list holds the saved object, unless an edit found no
      object with its id (then the list is unchanged). */
  lemma HandleSaveStoresObject(st: AppState, saved: ArchiveObject)
    ensures st.editing.None? || (exists o :: o in st.objects && o.id == saved.id) ==>
      saved in HandleSave(st, saved).objects
    ensures st.editing.Some? && (forall o :: o in st.objects ==> o.id != saved.id) ==>
      HandleSave(st, saved).objects == st.objects
  {
    var r := HandleSave(st, saved).objects;
    if st.editing.Some? && exists o :: o in st.objects && o.id == saved.id {
      var o :| o in st.objects && o.id == saved.id;
      var i :| 0 <= i < |st.objects| && st.objects[i] == o;
      assert r[i] == saved;
    }
    if st.editing.None? {
      assert r[|st.objects|] == saved;
    }
  }

  /** Submitting a valid new form and saving it appends the object, which carries
      the fresh id and the submission time as both creation and update time. */
  lemma SubmitThenAdd(st: AppState, form: ArchiveObject, now: string, freshId: string)
    requires st.editing.None?
    requires Trim(form.title) != "" && form.id == "" && form.createdAt == ""
    ensures var saved := HandleSubmit(form, now, freshId).value;
      && HandleSave(st, saved).objects == st.objects + [saved]
      && saved.id == freshId && saved.createdAt == now && saved.updatedAt == now
  {
    var saved := HandleSubmit(form, now, freshId).value;
    var r := HandleSave(st, saved).objects;
    assert r == st.objects + [saved];
  }
}
