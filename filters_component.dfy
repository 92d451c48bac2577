/**
 * The filters panel's own state: the form, the status line and the "saved"
 * dialog, with one method per event handler. Each request the panel sends is an
 * out-parameter, and each answer it receives is a parameter of the method that
 * handles it.
 */
module FiltersComponent {
  import opened Wrappers
  import Js
  import Filters
  import opened FiltersForm

  const LOAD_FAILED := "Failed to load filters"
  const SAVE_FAILED := "Failed to save filters"
  const RESET_FAILED := "Failed to reset filters"
  const SAVED := "Saved"
  const RESET_DONE := "Reset"

  /** `r?.msg || fallback`, as the status line shows it. */
  function ErrorText(msg: Js.Value, fallback: string): (r: string)
    ensures !Js.Truthy(msg) ==> r == fallback
    ensures msg.Str? && msg.s != "" ==> r == msg.s
  {
    if Js.Truthy(msg) then Js.ToStr(msg) else fallback
  }

  /** `r?.ok`: a missing or non-object answer counts as a failure. */
  predicate Succeeded(r: Js.Value) {
    Js.Truthy(Js.Get(r, "ok"))
  }

  class FiltersPanel {
    var form: Form
    var status: string
    var savedOpen: bool

    /** Both checkbox groups hold allowed values, each once. */
    predicate Valid()
      reads this
    {
      Normalized(form.inventoryTypes, Filters.Inventory) && Normalized(form.fuelTypes, Filters.Fuel)
    }

    constructor()
      ensures form == EMPTY && status == "" && !savedOpen
      ensures Valid()
    {
      form := EMPTY;
      status := "";
      savedOpen := false;
    }

    /** The mount effect, before the stored filter arrives. */
    method BeginLoad()
      modifies this
      ensures status == "" && form == old(form) && savedOpen == old(savedOpen)
    {
      status := "";
    }

    /** The mount effect's answer: the stored filter fills the form, or the error shows. */
    method Loaded(r: Js.Value)
      modifies this
      ensures Succeeded(r) ==> form == FormOf(Js.Get(r, "filter")) && status == old(status) && Valid()
      ensures !Succeeded(r) ==> form == old(form) && status == ErrorText(Js.Get(r, "msg"), LOAD_FAILED)
      ensures savedOpen == old(savedOpen)
    {
      if Js.Truthy(Js.Get(r, "ok")) {
        form := FormOf(Js.Get(r, "filter"));
        LoadedNormalized(Js.Get(r, "filter"));
      } else {
        status := ErrorText(Js.Get(r, "msg"), LOAD_FAILED);
      }
    }

    method ToggleInventory(value: string, checked: bool)
      modifies this
      ensures form == old(form).(inventoryTypes := Toggled(old(form.inventoryTypes), value, checked))
      ensures status == old(status) && savedOpen == old(savedOpen)
      ensures old(Valid()) && (checked ==> value in Filters.Allowed(Filters.Inventory)) ==> Valid()
    {
      ToggledSet(form.inventoryTypes, value, checked);
      form := form.(inventoryTypes := Toggled(form.inventoryTypes, value, checked));
    }

    method ToggleFuel(value: string, checked: bool)
      modifies this
      ensures form == old(form).(fuelTypes := Toggled(old(form.fuelTypes), value, checked))
      ensures status == old(status) && savedOpen == old(savedOpen)
      ensures old(Valid()) && (checked ==> value in Filters.Allowed(Filters.Fuel)) ==> Valid()
    {
      ToggledSet(form.fuelTypes, value, checked);
      form := form.(fuelTypes := Toggled(form.fuelTypes, value, checked));
    }

    /**
     * `onSubmit` up to the request: nothing is sent while a group is empty. When
     * the panel is valid, the server stores both groups exactly as they were
     * selected, with the first inventory type in the legacy column.
     */
    method Submit() returns (body: Option<Js.Value>)
      modifies this
      ensures HasTypeErrors(old(form)) ==> body.None? && status == SELECT_TYPE
      ensures !HasTypeErrors(old(form)) ==> body == Some(SubmitBody(old(form))) && status == ""
      ensures form == old(form) && savedOpen == old(savedOpen)
      ensures old(Valid()) && body.Some? ==>
        var saved := Filters.SavedOf(body.value);
        saved.inventoryTypes == Some(form.inventoryTypes) &&
        saved.inventoryType == Some(form.inventoryTypes[0]) &&
        saved.fuelTypes == Some(form.fuelTypes)
    {
      status := "";
      if HasTypeErrors(form) {
        status := SELECT_TYPE;
        return None;
      }
      if Valid() {
        SubmitSavesInventory(form);
        SubmitSavesFuel(form);
      }
      body := Some(SubmitBody(form));
    }

    /** `onSubmit` after the request: the stored row replaces the form and the dialog opens. */
    method Saved(r: Js.Value)
      modifies this
      ensures Succeeded(r) ==> form == FormOf(Js.Get(r, "filter")) && status == SAVED && savedOpen && Valid()
      ensures !Succeeded(r) ==>
        form == old(form) && status == ErrorText(Js.Get(r, "msg"), SAVE_FAILED) && savedOpen == old(savedOpen)
    {
      if !Js.Truthy(Js.Get(r, "ok")) {
        status := ErrorText(Js.Get(r, "msg"), SAVE_FAILED);
        return;
      }
      form := FormOf(Js.Get(r, "filter"));
      LoadedNormalized(Js.Get(r, "filter"));
      status := SAVED;
      savedOpen := true;
    }

    /** `onReset` up to the request: the form is reset at once, so the type errors show. */
    method Reset() returns (body: Js.Value)
      modifies this
      ensures form == RESET_FORM && status == "" && savedOpen == old(savedOpen) && Valid()
      ensures body == ResetBody() && HasTypeErrors(form)
    {
      status := "";
      form := RESET_FORM;
      body := ResetBody();
    }

    /** `onReset` after the request. */
    method ResetDone(r: Js.Value)
      modifies this
      ensures Succeeded(r) ==> form == FormOf(Js.Get(r, "filter")) && status == RESET_DONE && Valid()
      ensures !Succeeded(r) ==> form == old(form) && status == ErrorText(Js.Get(r, "msg"), RESET_FAILED)
      ensures savedOpen == old(savedOpen)
    {
      if !Js.Truthy(Js.Get(r, "ok")) {
        status := ErrorText(Js.Get(r, "msg"), RESET_FAILED);
        return;
      }
      form := FormOf(Js.Get(r, "filter"));
      LoadedNormalized(Js.Get(r, "filter"));
      status := RESET_DONE;
    }

    /** A click on the backdrop of the "saved" dialog. */
    method CloseSaved()
      modifies this
      ensures !savedOpen && form == old(form) && status == old(status)
    {
      savedOpen := false;
    }
  }

  /** A form loaded from any stored row has both groups normalised. */
  lemma LoadedNormalized(f: Js.Value)
    ensures Normalized(FormOf(f).inventoryTypes, Filters.Inventory)
    ensures Normalized(FormOf(f).fuelTypes, Filters.Fuel)
  {
    var x := Row(f);
    FormTypesMembers(TypesSource(x, Filters.Inventory), Filters.Inventory);
    FormTypesMembers(TypesSource(x, Filters.Fuel), Filters.Fuel);
  }
}
