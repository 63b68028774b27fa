/** The fleet page: the ship editor's save handler. */
module ShipManagement {
  import opened Types
  import opened Text
  import opened Collections
  import App

  /** The editor's partially filled ship. The capacity is `None` when it is
      missing or its input does not read as a number. */
  datatype ShipForm = ShipForm(id: Option<string>, name: Option<string>, capacity: Option<int>)

  /** The form for a new ship. */
  const EmptyShipForm: ShipForm := ShipForm(None, Some(""), Some(0))

  function FormOfShip(s: Ship): ShipForm
  {
    ShipForm(Some(s.id), Some(s.name), Some(s.capacity))
  }

  datatype ShipEditor = ShipEditor(isOpen: bool, form: ShipForm)

  datatype ShipSave = ShipSave(saved: Option<Ship>, editor: ShipEditor)

  /** JavaScript truthiness of the capacity: present, a number, and not 0. */
  predicate CapacitySet(c: Option<int>)
  {
    c.Some? && c.value != 0
  }

  /** The save handler. Without a name or with a zero or missing capacity
      nothing happens; otherwise the ship keeps the form's id (else a fresh
      one), name and capacity, and the editor closes and resets. */
  function SaveShipForm(ed: ShipEditor, nowMillis: nat): (r: ShipSave)
    ensures r.saved.None? <==> !Truthy(ed.form.name) || !CapacitySet(ed.form.capacity)
    ensures r.saved.None? ==> r.editor == ed
    ensures r.saved.Some? ==> r.editor == ShipEditor(false, EmptyShipForm)
    ensures r.saved.Some? ==>
      && r.saved.value.id == (if Truthy(ed.form.id) then ed.form.id.value else NumberedId("s-", nowMillis))
      && Some(r.saved.value.name) == ed.form.name
      && Some(r.saved.value.capacity) == ed.form.capacity
      && r.saved.value.capacity != 0
  {
    var f := ed.form;
    if !Truthy(f.name) || !CapacitySet(f.capacity) then ShipSave(None, ed)
    else ShipSave(Some(Ship(OrElse(f.id, NumberedId("s-", nowMillis)), f.name.value, f.capacity.value)),
      ShipEditor(false, EmptyShipForm))
  }

  /** Opening a stored ship and saving it unchanged gives it back, and the
      application's list then holds it under its id. */
  lemma EditAndSaveShipRoundTrip(s: Ship, ships: seq<Ship>, nowMillis: nat)
    requires s.id != "" && s.name != "" && s.capacity != 0
    ensures SaveShipForm(ShipEditor(true, FormOfShip(s)), nowMillis).saved == Some(s)
    ensures FindById(App.SaveShip(ships, s), ShipId, s.id) == Some(s)
  {
  }

  /** Only zero is refused: a negative capacity is saved as it stands. */
  lemma NegativeCapacityAccepted(name: string, capacity: int, nowMillis: nat)
    requires name != "" && capacity < 0
    ensures var r := SaveShipForm(ShipEditor(true, ShipForm(None, Some(name), Some(capacity))), nowMillis);
      r.saved.Some? && r.saved.value.capacity == capacity && StartsWith(r.saved.value.id, "s-")
  {
  }

  /** The blank form is never saveable. */
  lemma BlankShipFormRejected(open: bool, nowMillis: nat)
    ensures SaveShipForm(ShipEditor(open, EmptyShipForm), nowMillis) == ShipSave(None, ShipEditor(open, EmptyShipForm))
  {
  }
}
