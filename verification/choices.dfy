/**
 * The maintenance types the forms offer, set against the choices the
 * maintenance table accepts.
 */
module Choices {
  import opened JsValues
  import opened Lists
  import opened Models
  import FormConfigs

  /** The `value` of every option, in order. */
  function OptionValues(options: seq<FormConfigs.SelectOption>): (r: seq<Value>)
    ensures |r| == |options|
    ensures forall i | 0 <= i < |options| :: r[i] == options[i].value
  {
    seq(|options|, i requires 0 <= i < |options| => options[i].value)
  }

  /** As written: the forms offer "cleaning" and "inspection", which the table's choices reject. */
  lemma OfferedTypesRejected(m: Maintenance)
    requires m.maintenanceType == "cleaning" || m.maintenanceType == "inspection"
    ensures Str(m.maintenanceType) in OptionValues(FormConfigs.MaintenanceTypeOptions)
    ensures !MaintenanceOk(m)
  {
    var values := OptionValues(FormConfigs.MaintenanceTypeOptions);
    assert values[4] == Str("cleaning") && values[5] == Str("inspection");
  }

  /** An option whose value is one of the table's choices. */
  predicate AcceptedOption(o: FormConfigs.SelectOption) {
    o.value.Str? && o.value.s in MaintenanceTypes
  }

  /** Corrected: the offered options restricted to the table's choices, in the offered order. */
  function AcceptedTypeOptions(): (r: seq<FormConfigs.SelectOption>)
    ensures forall o | o in r :: o in FormConfigs.MaintenanceTypeOptions && AcceptedOption(o)
    ensures forall i | 0 <= i < |MaintenanceTypes| :: Str(MaintenanceTypes[i]) in OptionValues(r)
  {
    var r := Keep(FormConfigs.MaintenanceTypeOptions, AcceptedOption);
    forall i | 0 <= i < |MaintenanceTypes|
      ensures Str(MaintenanceTypes[i]) in OptionValues(r)
    {
      var o := FormConfigs.MaintenanceTypeOptions[i];
      assert o.value == Str(MaintenanceTypes[i]) && AcceptedOption(o);
      assert o in r;
      var k :| 0 <= k < |r| && r[k] == o;
      assert OptionValues(r)[k] == o.value;
    }
    r
  }

  /** With the corrected options every offered type saves, given a cost the table accepts. */
  lemma AcceptedTypesSave(m: Maintenance, o: FormConfigs.SelectOption)
    requires o in AcceptedTypeOptions() && Str(m.maintenanceType) == o.value && SmallAmountOk(m.cost)
    ensures MaintenanceOk(m)
  {
  }
}
