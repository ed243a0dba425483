/** What a REDCap project derives from its metadata (redcap/project.go): the
    fetched field list, the field labels, and the grouping of the fields into
    forms by form name. */
module ProjectMetadata {
  import opened Outcomes
  import opened Fields

  // ---------------------------------------------------------------------------
  // Fetching

  /** json.Unmarshal into []RedcapField: each record decoded in turn, the
      first failing record ending the decoding. */
  function DecodeAll(records: seq<map<string, string>>): Result<seq<RedcapField>> {
    TryEach(Decode, records)
  }

  /** GetMetadata's fetch: the response (or the failure to get or read it),
      decoded, and an error for an empty list, whose first element
      `GetMetadata` reads as the unique key. */
  function FetchMetadata(response: Result<seq<map<string, string>>>): Result<seq<RedcapField>> {
    var records :- response;
    var fields :- DecodeAll(records);
    if fields == [] then Err(EmptyMetadata) else Ok(fields)
  }

  /** Decoding the list succeeds exactly when every record decodes, and then
      holds one field per record, in record order. */
  lemma DecodeAllRecords(records: seq<map<string, string>>)
    ensures DecodeAll(records).Ok? <==> forall i :: 0 <= i < |records| ==> Decode(records[i]).Ok?
    ensures DecodeAll(records).Ok? ==>
      && |DecodeAll(records).value| == |records|
      && forall i :: 0 <= i < |records| ==> DecodeAll(records).value[i] == Decode(records[i]).value
  {
    TryEachSucceeds(Decode, records);
  }

  /** A failed decoding reports the error of the first record that fails. */
  lemma DecodeAllFirstError(records: seq<map<string, string>>) returns (k: nat)
    requires DecodeAll(records).Err?
    ensures k < |records| && Decode(records[k]) == Err(DecodeAll(records).error)
    ensures forall i :: 0 <= i < k ==> Decode(records[i]).Ok?
  {
    k := TryEachFirstError(Decode, records);
  }

  /** json.Unmarshal's loop over the records, calling UnmarshalJSON on each. */
  method DecodeMetadata(records: seq<map<string, string>>) returns (r: Result<seq<RedcapField>>)
    ensures r == DecodeAll(records)
  {
    var fields: seq<RedcapField> := [];
    var i := 0;
    while i < |records|
      invariant 0 <= i <= |records|
      invariant TryEach(Decode, records[..i]) == Ok(fields)
    {
      TryEachStep(Decode, records, i);
      var field := UnmarshalJSON(records[i]);
      if field.Err? {
        TryEachFailsEarly(Decode, records, i + 1);
        return Err(field.error);
      }
      fields := fields + [field.value];
      i := i + 1;
    }
    assert records[..i] == records;
    r := Ok(fields);
  }

  /** A fetch succeeds exactly when the response was read, is not empty and
      every record decodes; the fetched metadata is then the decoded
      response. A response that cannot be read, or the first record that
      does not decode, is passed on as the error. */
  lemma FetchedMetadata(response: Result<seq<map<string, string>>>)
    ensures FetchMetadata(response).Ok? <==>
      && response.Ok? && |response.value| >= 1
      && forall i :: 0 <= i < |response.value| ==> Decode(response.value[i]).Ok?
    ensures response.Err? ==> FetchMetadata(response) == Err(response.error)
    ensures response.Ok? && DecodeAll(response.value).Err? ==>
      FetchMetadata(response) == Err(DecodeAll(response.value).error)
    ensures response.Ok? && response.value == [] ==> FetchMetadata(response) == Err(EmptyMetadata)
    ensures FetchMetadata(response).Ok? ==>
      && response.Ok? && |FetchMetadata(response).value| == |response.value| >= 1
      && forall i :: 0 <= i < |response.value| ==>
           Decode(response.value[i]) == Ok(FetchMetadata(response).value[i])
  {
    if response.Ok? {
      DecodeAllRecords(response.value);
    }
  }

  // ---------------------------------------------------------------------------
  // Grouping the fields into forms

  /** The distinct form names, in order of first appearance. */
  function FormNames(fields: seq<RedcapField>): seq<string>
    decreases |fields|
  {
    if fields == [] then []
    else
      var names := FormNames(fields[..|fields| - 1]);
      var name := fields[|fields| - 1].formName;
      if name in names then names else names + [name]
  }

  /** The fields of one form, in metadata order. */
  function FieldsOf(fields: seq<RedcapField>, name: string): seq<RedcapField>
    decreases |fields|
  {
    if fields == [] then []
    else
      var last := fields[|fields| - 1];
      FieldsOf(fields[..|fields| - 1], name) + (if last.formName == name then [last] else [])
  }

  /** Each name's fields, name after name. */
  function Groups(fields: seq<RedcapField>, names: seq<string>): seq<seq<RedcapField>> {
    seq(|names|, j requires 0 <= j < |names| => FieldsOf(fields, names[j]))
  }

  function Flatten(groups: seq<seq<RedcapField>>): seq<RedcapField>
    decreases |groups|
  {
    if groups == [] then [] else Flatten(groups[..|groups| - 1]) + groups[|groups| - 1]
  }

  predicate Distinct(names: seq<string>) {
    forall p, q :: 0 <= p < q < |names| ==> names[p] != names[q]
  }

  /** The form names are distinct, and a name is among them exactly when some
      field belongs to that form. */
  lemma {:induction false} FormNamesOfFields(fields: seq<RedcapField>)
    ensures Distinct(FormNames(fields))
    ensures forall name :: name in FormNames(fields) <==> exists i :: 0 <= i < |fields| && fields[i].formName == name
    decreases |fields|
  {
    if fields != [] {
      var n := |fields| - 1;
      FormNamesOfFields(fields[..n]);
      assert forall i :: 0 <= i < n ==> fields[..n][i] == fields[i];
    }
  }

  /** A form's fields are exactly the fields carrying its name, each as often
      as in the metadata. */
  lemma {:induction false} FieldsOfForm(fields: seq<RedcapField>, name: string)
    ensures forall f :: f in FieldsOf(fields, name) ==> f.formName == name
    ensures forall f: RedcapField :: f.formName == name ==> multiset(FieldsOf(fields, name))[f] == multiset(fields)[f]
    decreases |fields|
  {
    if fields != [] {
      var n := |fields| - 1;
      FieldsOfForm(fields[..n], name);
      assert fields == fields[..n] + [fields[n]];
    }
  }

  /** A form without a name among the form names has no fields. */
  lemma {:induction false} FieldsOfUnnamedForm(fields: seq<RedcapField>, name: string)
    requires name !in FormNames(fields)
    ensures FieldsOf(fields, name) == []
    decreases |fields|
  {
    if fields != [] {
      FieldsOfUnnamedForm(fields[..|fields| - 1], name);
    }
  }

  /** The grouping is a partition: every field lands in exactly one form's
      list, and no field is dropped or duplicated. */
  lemma FormsPartitionFields(fields: seq<RedcapField>)
    ensures multiset(Flatten(Groups(fields, FormNames(fields)))) == multiset(fields)
  {
    FormNamesOfFields(fields);
    GroupsPartition(fields, FormNames(fields));
  }

  /** The partition for any distinct list of names that covers every form. */
  lemma {:induction false} GroupsPartition(fields: seq<RedcapField>, names: seq<string>)
    requires Distinct(names)
    requires forall i :: 0 <= i < |fields| ==> fields[i].formName in names
    ensures multiset(Flatten(Groups(fields, names))) == multiset(fields)
    decreases |fields|
  {
    if fields == [] {
      EmptyGroups(names);
    } else {
      var n := |fields| - 1;
      var x := fields[n];
      assert forall i :: 0 <= i < n ==> fields[..n][i] == fields[i];
      GroupsPartition(fields[..n], names);
      var p :| 0 <= p < |names| && names[p] == x.formName;
      var before := Groups(fields[..n], names);
      GroupsSnoc(fields, names, p);
      FlattenExtend(before, p, x);
      assert fields == fields[..n] + [x];
    }
  }

  /** The last field joins its own form's group and no other. */
  lemma GroupsSnoc(fields: seq<RedcapField>, names: seq<string>, p: nat)
    requires |fields| >= 1 && Distinct(names)
    requires p < |names| && names[p] == fields[|fields| - 1].formName
    ensures var before := Groups(fields[..|fields| - 1], names);
      Groups(fields, names) == before[p := before[p] + [fields[|fields| - 1]]]
  {
    var n := |fields| - 1;
    var x := fields[n];
    var before := Groups(fields[..n], names);
    forall j | 0 <= j < |names|
      ensures Groups(fields, names)[j] == before[p := before[p] + [x]][j]
    {
      assert FieldsOf(fields, names[j]) == FieldsOf(fields[..n], names[j]) + (if names[j] == x.formName then [x] else []);
    }
  }

  lemma {:induction false} EmptyGroups(names: seq<string>)
    ensures Flatten(Groups([], names)) == []
    decreases |names|
  {
    if names != [] {
      var n := |names| - 1;
      EmptyGroups(names[..n]);
      assert Groups([], names)[..n] == Groups([], names[..n]);
    }
  }

  /** Adding a field to one group adds it once to the flattened fields. */
  lemma {:induction false} FlattenExtend(groups: seq<seq<RedcapField>>, p: nat, x: RedcapField)
    requires p < |groups|
    ensures multiset(Flatten(groups[p := groups[p] + [x]])) == multiset(Flatten(groups)) + multiset{x}
    decreases |groups|
  {
    var n := |groups| - 1;
    var updated := groups[p := groups[p] + [x]];
    assert Flatten(updated) == Flatten(updated[..n]) + updated[n];
    if p == n {
      assert updated[..n] == groups[..n];
      assert multiset(updated[n]) == multiset(groups[n]) + multiset{x};
    } else {
      FlattenExtend(groups[..n], p, x);
      assert updated[..n] == groups[..n][p := groups[p] + [x]];
      assert updated[n] == groups[n];
    }
  }

  // ---------------------------------------------------------------------------
  // GetForms as written

  /** A form as GetForms' composite literal builds it: only the name is set,
      so the map of fields is nil (None). */
  datatype LiteralForm = LiteralForm(name: string, fields: Option<map<string, RedcapField>>, fieldOrder: seq<RedcapField>)

  /** addFieldToForm on such a form: writing into a nil map panics. */
  function AddFieldToLiteralForm(form: LiteralForm, field: RedcapField): Result<LiteralForm> {
    match form.fields
    case None => Err(NilMapWrite)
    case Some(index) => Ok(LiteralForm(form.name, Some(index[field.fieldName := field]), form.fieldOrder + [field]))
  }

  /** GetForms' loop as written: a new form is the literal with only a name. */
  function GetFormsAsWritten(fields: seq<RedcapField>): Result<map<string, LiteralForm>>
    decreases |fields|
  {
    if fields == [] then Ok(map[])
    else
      var forms :- GetFormsAsWritten(fields[..|fields| - 1]);
      var field := fields[|fields| - 1];
      var form := if field.formName in forms then forms[field.formName] else LiteralForm(field.formName, None, []);
      var updated :- AddFieldToLiteralForm(form, field);
      Ok(forms[field.formName := updated])
  }

  /** As written, GetForms panics on the very first field of any metadata. */
  lemma {:induction false} GetFormsAsWrittenPanics(fields: seq<RedcapField>)
    requires |fields| >= 1
    ensures GetFormsAsWritten(fields) == Err(NilMapWrite)
    decreases |fields|
  {
    var n := |fields| - 1;
    if n >= 1 {
      GetFormsAsWrittenPanics(fields[..n]);
    } else {
      assert fields[..n] == [];
    }
  }
}
