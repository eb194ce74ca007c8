/** The crop page (src/pages/Index.tsx): the list of crops, the crop being edited and the
    dialog flag, the handlers that change them, the add/edit dialog they are wired to and
    what the page shows. */
module CropsPage {

  import opened Wrappers
  import opened Crops
  import opened CropForm

  /** What the page renders: the landing page for a visitor without a wallet, the empty
      state, or one card per crop in list order. */
  datatype View = Landing | EmptyState | Grid(cards: seq<Crop>)

  /** The render branches: `!isConnected`, then `crops.length === 0`, then the grid. */
  function PageView(isConnected: bool, crops: seq<Crop>): (v: View)
    ensures v == Landing <==> !isConnected
    ensures v == EmptyState <==> isConnected && |crops| == 0
    ensures v.Grid? ==> v.cards == crops && |v.cards| > 0
  {
    if !isConnected then Landing
    else if |crops| == 0 then EmptyState
    else Grid(crops)
  }

  /** A connected user sees the two initial crops, and after deleting both of them the
      empty state. */
  lemma InitialPageViews()
    ensures PageView(true, InitialCrops) == Grid(InitialCrops)
    ensures PageView(true, Removed(Removed(InitialCrops, "1"), "2")) == EmptyState
  {
    var once := Removed(InitialCrops, "1");
    assert InitialCrops[1] in InitialCrops;
    assert once == [InitialCrops[1]];
    assert Removed(once, "2") == [];
  }

  /** The list after a dispatch reaches the page's handlers, with `freshId` standing for
      the id `handleAddCrop` makes up. */
  function Applied(crops: seq<Crop>, d: Dispatch, freshId: string): seq<Crop> {
    match d
    case CallUpdate(c) => Replaced(crops, c)
    case CallAdd(f) => Appended(crops, f, freshId)
  }

  /** A submit while a crop is being edited keeps the ids of the list, in order, and puts
      the form's fields under the edited crop's id when that id is listed; a submit with
      nothing being edited adds exactly one crop, at the end, carrying the form. */
  lemma SubmitEffect(crops: seq<Crop>, editCrop: Option<Crop>, form: CropFields, freshId: string)
    ensures var r := Applied(crops, Dispatched(editCrop, true, form), freshId);
      (editCrop.Some? ==> Ids(r) == Ids(crops))
      && (editCrop.Some? && editCrop.value.id in Ids(crops) ==> Crop(editCrop.value.id, form) in r)
      && (editCrop.None? ==> r == crops + [Crop(freshId, form)])
  {
    if editCrop.Some? {
      var u := Crop(editCrop.value.id, form);
      ReplacedKeepsIds(crops, u);
      if u.id in Ids(crops) {
        var i :| 0 <= i < |Ids(crops)| && Ids(crops)[i] == u.id;
        assert Replaced(crops, u)[i] == u;
      }
    }
  }

  class Page {
    var crops: seq<Crop>
    var editingCrop: Option<Crop>
    var isDialogOpen: bool
    /** Whether a wallet is connected: only then is the dialog rendered. */
    var isConnected: bool
    /** The `AddCropDialog` mounted the last time the wallet connected. */
    var form: Form

    /** The page as it mounts: the two initial crops, nothing being edited, the dialog
        mounted with no crop to edit and `onUpdate` present. */
    constructor (isConnected: bool)
      ensures crops == InitialCrops && editingCrop == None && !isDialogOpen
      ensures this.isConnected == isConnected
      ensures fresh(form) && form.editCrop == None && form.hasOnUpdate
      ensures !form.open && form.formData == EmptyForm
    {
      crops := InitialCrops;
      editingCrop := None;
      isDialogOpen := false;
      this.isConnected := isConnected;
      form := new Form(None, true);
    }

    /** The wallet connects or disconnects. Disconnecting unmounts the dialog; connecting
        again mounts a new one, whose form is initialised from the crop being edited at
        that moment. The page's own state survives both. */
    method SetConnected(c: bool)
      modifies this
      ensures isConnected == c
      ensures crops == old(crops) && editingCrop == old(editingCrop) && isDialogOpen == old(isDialogOpen)
      ensures c && !old(isConnected) ==>
        fresh(form) && form.editCrop == editingCrop && form.hasOnUpdate
        && !form.open && form.formData == InitialForm(editingCrop)
      ensures !(c && !old(isConnected)) ==> form == old(form)
    {
      if c && !isConnected {
        form := new Form(editingCrop, true);
      }
      isConnected := c;
    }

    /** `handleAddCrop(fields)`, with `id` standing for `Date.now().toString()`. */
    method HandleAddCrop(fields: CropFields, id: string)
      modifies this
      ensures form == old(form) && isConnected == old(isConnected)
      ensures crops == Appended(old(crops), fields, id)
      ensures editingCrop == old(editingCrop) && isDialogOpen == old(isDialogOpen)
    {
      crops := crops + [Crop(id, fields)];
    }

    /** `handleUpdateCrop(u)`: every crop with `u`'s id becomes `u`; nothing is being
        edited any more and the dialog flag is cleared. */
    method HandleUpdateCrop(u: Crop)
      modifies this
      ensures form == old(form) && isConnected == old(isConnected)
      ensures crops == Replaced(old(crops), u)
      ensures editingCrop == None && !isDialogOpen
    {
      crops := Replaced(crops, u);
      editingCrop := None;
      isDialogOpen := false;
    }

    /** `handleDeleteCrop(id)`: every crop with that id goes, the rest stay in order. */
    method HandleDeleteCrop(id: string)
      modifies this
      ensures form == old(form) && isConnected == old(isConnected)
      ensures crops == Removed(old(crops), id)
      ensures editingCrop == old(editingCrop) && isDialogOpen == old(isDialogOpen)
    {
      crops := Removed(crops, id);
    }

    /** `handleEditCrop(c)`, from a card's Edit button: remembers the crop and sets the
        dialog flag. The dialog does not take `open` as a prop, so its own open flag and
        its form are left as they were. */
    method HandleEditCrop(c: Crop)
      modifies this
      ensures form == old(form) && isConnected == old(isConnected)
      ensures editingCrop == Some(c) && isDialogOpen
      ensures crops == old(crops)
      ensures form.open == old(form.open) && form.formData == old(form.formData)
    {
      editingCrop := Some(c);
      isDialogOpen := true;
    }

    /** `handleDialogClose`: clears the flag and the crop being edited. */
    method HandleDialogClose()
      modifies this
      ensures form == old(form) && isConnected == old(isConnected)
      ensures !isDialogOpen && editingCrop == None
      ensures crops == old(crops)
    {
      isDialogOpen := false;
      editingCrop := None;
    }

    /** A submit of the dialog, wired as the page renders it (`editCrop={editingCrop}`,
        `onUpdate={handleUpdateCrop}`, `onAdd={handleAddCrop}`). While a crop is being
        edited, the form's fields replace that crop under its own id; otherwise they are
        appended as a new crop with id `freshId`. Either way the dialog closes and its
        form is cleared. The form's `editCrop` is left at the props of this submit; after
        an update the page re-renders it with `null`, which the next submit passes in
        through `ReceiveProps` before it reads the prop. */
    method SubmitDialog(freshId: string) returns (d: Dispatch)
      requires isConnected
      modifies this, form
      ensures d == Dispatched(old(editingCrop), true, old(form.formData))
      ensures crops == Applied(old(crops), d, freshId)
      ensures old(editingCrop).Some? ==>
        crops == Replaced(old(crops), Crop(old(editingCrop).value.id, old(form.formData)))
        && editingCrop == None && !isDialogOpen
      ensures old(editingCrop).None? ==>
        crops == Appended(old(crops), old(form.formData), freshId)
        && editingCrop == None && isDialogOpen == old(isDialogOpen)
      ensures form == old(form) && isConnected
      ensures !form.open && form.formData == EmptyForm
      ensures form.editCrop == old(editingCrop) && form.hasOnUpdate
    {
      form.ReceiveProps(editingCrop, true);
      d := form.HandleSubmit();
      match d
      case CallUpdate(c) => HandleUpdateCrop(c);
      case CallAdd(f) => HandleAddCrop(f, freshId);
    }
  }
}
