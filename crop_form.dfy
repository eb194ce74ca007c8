/** The add/edit crop dialog (src/components/AddCropDialog.tsx): its own open flag and
    form record, initialised once from the `editCrop` prop, and a submit handler that
    hands the form to `onUpdate` or `onAdd`, closes the dialog and clears the form. */
module CropForm {

  import opened Wrappers
  import opened Crops

  /** The form after a submit: every text field empty, the stage at Seeding. */
  const EmptyForm := CropFields("", "", "", Seeding, "", "", "", "", "")

  /** `a || b` on strings: the first operand unless it is empty. */
  function OrElse(a: string, b: string): (r: string)
    ensures r == a || r == b
    ensures r == "" <==> a == "" && b == ""
    ensures a != "" ==> r == a
  {
    if a != "" then a else b
  }

  /** The `useState` initialiser: each field of `editCrop`, or its default when the
      crop is absent or the field is empty. */
  function InitialForm(editCrop: Option<Crop>): (f: CropFields)
    ensures editCrop.Some? ==> f == editCrop.value.fields
    ensures editCrop.None? ==> f == EmptyForm
  {
    match editCrop
    case None => EmptyForm
    case Some(c) => CropFields(
      OrElse(c.fields.name, ""), OrElse(c.fields.variety, ""), OrElse(c.fields.plantDate, ""),
      c.fields.growthStage, OrElse(c.fields.expectedHarvest, ""), OrElse(c.fields.location, ""),
      OrElse(c.fields.area, ""), OrElse(c.fields.yieldPrediction, ""),
      OrElse(c.fields.pestControl, ""))
  }

  /** Which callback a submit calls, and with what. */
  datatype Dispatch = CallUpdate(crop: Crop) | CallAdd(fields: CropFields)

  /** The choice `editCrop && onUpdate ? onUpdate(...) : onAdd(formData)`. */
  function Dispatched(editCrop: Option<Crop>, hasOnUpdate: bool, form: CropFields): (d: Dispatch)
    ensures d.CallUpdate? <==> editCrop.Some? && hasOnUpdate
    ensures d.CallUpdate? ==> d.crop == Crop(editCrop.value.id, form)
    ensures d.CallAdd? ==> d.fields == form
  {
    if editCrop.Some? && hasOnUpdate then CallUpdate(Crop(editCrop.value.id, form))
    else CallAdd(form)
  }

  /** An update keeps the edited crop's id and takes every field from the form; an add
      carries the form unchanged. Whichever is called, it carries the form's fields. */
  lemma DispatchCarriesForm(editCrop: Option<Crop>, hasOnUpdate: bool, form: CropFields)
    ensures match Dispatched(editCrop, hasOnUpdate, form)
      case CallUpdate(c) => c.fields == form && c.id == editCrop.value.id
      case CallAdd(f) => f == form
    ensures editCrop.Some? && !hasOnUpdate ==> Dispatched(editCrop, hasOnUpdate, form) == CallAdd(form)
  {
  }

  /** One mounted dialog. `editCrop` and `hasOnUpdate` are its current props. */
  class Form {
    var editCrop: Option<Crop>
    var hasOnUpdate: bool
    var open: bool
    var formData: CropFields

    /** Mounting: closed, and the form initialised from the first `editCrop`. */
    constructor (editCrop: Option<Crop>, hasOnUpdate: bool)
      ensures this.editCrop == editCrop && this.hasOnUpdate == hasOnUpdate
      ensures !open && formData == InitialForm(editCrop)
    {
      this.editCrop, this.hasOnUpdate := editCrop, hasOnUpdate;
      open := false;
      formData := InitialForm(editCrop);
    }

    /** A re-render with new props: the initialiser does not run again, so the form
        keeps whatever it holds, even when `editCrop` changes. */
    method ReceiveProps(editCrop: Option<Crop>, hasOnUpdate: bool)
      modifies this
      ensures this.editCrop == editCrop && this.hasOnUpdate == hasOnUpdate
      ensures open == old(open) && formData == old(formData)
    {
      this.editCrop, this.hasOnUpdate := editCrop, hasOnUpdate;
    }

    /** `setOpen(v)`, from the trigger button or the dialog's own open-change event. */
    method SetOpen(v: bool)
      modifies this
      ensures open == v
      ensures editCrop == old(editCrop) && hasOnUpdate == old(hasOnUpdate) && formData == old(formData)
    {
      open := v;
    }

    /** An input's change handler: `setFormData({ ...formData, field: value })`. */
    method SetFormData(f: CropFields)
      modifies this
      ensures formData == f
      ensures editCrop == old(editCrop) && hasOnUpdate == old(hasOnUpdate) && open == old(open)
    {
      formData := f;
    }

    /** The Cancel button: closes the dialog, calls no callback and keeps the form. */
    method Cancel()
      modifies this
      ensures !open
      ensures editCrop == old(editCrop) && hasOnUpdate == old(hasOnUpdate) && formData == old(formData)
    {
      open := false;
    }

    /** `handleSubmit`: dispatches the current form, then closes and clears it. */
    method HandleSubmit() returns (d: Dispatch)
      modifies this
      ensures d == Dispatched(old(editCrop), old(hasOnUpdate), old(formData))
      ensures !open && formData == EmptyForm
      ensures editCrop == old(editCrop) && hasOnUpdate == old(hasOnUpdate)
    {
      if editCrop.Some? && hasOnUpdate {
        d := CallUpdate(Crop(editCrop.value.id, formData));
      } else {
        d := CallAdd(formData);
      }
      open := false;
      formData := EmptyForm;
    }
  }
}
