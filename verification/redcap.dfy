/** The REDCap client's objects (redcap/form.go, redcap/project.go): a form
    that collects fields and writes its table, and a project that fetches its
    metadata once, lists its field labels and builds its forms. */
module Redcap {
  import opened Outcomes
  import opened GoStrings
  import opened Fields
  import opened Sql
  import opened ProjectMetadata

  datatype RedcapEvent = RedcapEvent(
    armNum: int,
    dayOffset: int,
    offsetMax: int,
    offsetMin: int,
    uniqueEventName: string)

  // ---------------------------------------------------------------------------
  // The field index of a form

  /** The name-to-field index after adding `fields` in order. */
  function FieldIndex(fields: seq<RedcapField>): map<string, RedcapField>
    decreases |fields|
  {
    if fields == [] then map[]
    else FieldIndex(fields[..|fields| - 1])[fields[|fields| - 1].fieldName := fields[|fields| - 1]]
  }

  /** The index holds exactly the names of the added fields, and each name
      maps to the last field added under it. */
  lemma {:induction false} FieldIndexHoldsLastField(fields: seq<RedcapField>, name: string) returns (i: nat)
    requires exists j :: 0 <= j < |fields| && fields[j].fieldName == name
    ensures name in FieldIndex(fields)
    ensures i < |fields| && fields[i] == FieldIndex(fields)[name] && fields[i].fieldName == name
    ensures forall j :: i < j < |fields| ==> fields[j].fieldName != name
    decreases |fields|
  {
    var n := |fields| - 1;
    if fields[n].fieldName == name {
      i := n;
    } else {
      var j :| 0 <= j < |fields| && fields[j].fieldName == name;
      assert fields[..n][j] == fields[j];
      i := FieldIndexHoldsLastField(fields[..n], name);
    }
  }

  /** A name without a field is not in the index. */
  lemma {:induction false} FieldIndexOnlyAddedNames(fields: seq<RedcapField>, name: string)
    requires forall j :: 0 <= j < |fields| ==> fields[j].fieldName != name
    ensures name !in FieldIndex(fields)
    decreases |fields|
  {
    if fields != [] {
      var n := |fields| - 1;
      assert forall j :: 0 <= j < n ==> fields[..n][j] == fields[j];
      FieldIndexOnlyAddedNames(fields[..n], name);
    }
  }

  /** Every field in the index is filed under its own name. */
  lemma {:induction false} FieldIndexByName(fields: seq<RedcapField>)
    ensures forall name :: name in FieldIndex(fields) ==> FieldIndex(fields)[name].fieldName == name
    decreases |fields|
  {
    if fields != [] {
      FieldIndexByName(fields[..|fields| - 1]);
    }
  }

  /** FieldIndex of a list with one more field is the earlier index with
      that field filed under its name. */
  lemma FieldIndexSnoc(fields: seq<RedcapField>, field: RedcapField)
    ensures FieldIndex(fields + [field]) == FieldIndex(fields)[field.fieldName := field]
  {
    assert (fields + [field])[..|fields|] == fields;
  }

  /** A form's contents: its field index and its fields in insertion order. */
  datatype FormState = FormState(fields: map<string, RedcapField>, order: seq<RedcapField>)

  const EMPTY_FORM := FormState(map[], [])

  /** addFieldToForm on a form's contents. */
  function Added(form: FormState, field: RedcapField): FormState {
    FormState(form.fields[field.fieldName := field], form.order + [field])
  }

  /** A second update of a key replaces the first. */
  lemma MapOverride(m: map<string, FormState>, key: string, first: FormState, second: FormState)
    ensures m[key := first][key := second] == m[key := second]
  {
  }

  /** The forms' contents after filing the fields one by one: each field is
      added to the form of its name, which starts out empty. */
  function Filed(fields: seq<RedcapField>): map<string, FormState>
    decreases |fields|
  {
    if fields == [] then map[]
    else
      var before := Filed(fields[..|fields| - 1]);
      var field := fields[|fields| - 1];
      before[field.formName := Added(if field.formName in before then before[field.formName] else EMPTY_FORM, field)]
  }

  /** After filing every field a name has a form exactly when it is a form
      name, and that form holds the form's fields in metadata order under
      their index. */
  lemma {:induction false} FiledForm(fields: seq<RedcapField>, name: string)
    ensures name in Filed(fields) <==> name in FormNames(fields)
    ensures name in Filed(fields) ==>
      Filed(fields)[name] == FormState(FieldIndex(FieldsOf(fields, name)), FieldsOf(fields, name))
    decreases |fields|
  {
    if fields != [] {
      var n := |fields| - 1;
      var field := fields[n];
      var before := Filed(fields[..n]);
      var earlier := FieldsOf(fields[..n], name);
      FiledForm(fields[..n], name);
      if field.formName == name {
        if name !in FormNames(fields[..n]) {
          FieldsOfUnnamedForm(fields[..n], name);
        }
        FieldIndexSnoc(earlier, field);
        assert Filed(fields)[name] == Added(if name in before then before[name] else EMPTY_FORM, field);
        assert FieldsOf(fields, name) == earlier + [field];
      } else {
        assert FieldsOf(fields, name) == earlier + [] == earlier;
      }
    }
  }

  /** FiledForm for every name. */
  lemma FiledByForm(fields: seq<RedcapField>)
    ensures forall name :: name in Filed(fields) <==> name in FormNames(fields)
    ensures forall name :: name in Filed(fields) ==>
      Filed(fields)[name] == FormState(FieldIndex(FieldsOf(fields, name)), FieldsOf(fields, name))
  {
    forall name {
      FiledForm(fields, name);
    }
  }

  // ---------------------------------------------------------------------------
  // RedcapForm

  class RedcapForm {
    const Name: string
    var Fields: map<string, RedcapField>
    var FieldOrder: seq<RedcapField>
    const UniqueKey: RedcapField
    const Project: RedcapProject?

    /** The map indexes the insertion-ordered list. */
    ghost predicate Valid()
      reads this
    {
      Fields == FieldIndex(FieldOrder)
    }

    /** The form literal: a name, an empty field map, the project's unique
        key and the project itself. */
    constructor(name: string, uniqueKey: RedcapField, project: RedcapProject?)
      ensures Name == name && UniqueKey == uniqueKey && Project == project
      ensures Fields == map[] && FieldOrder == []
      ensures Valid()
    {
      Name := name;
      UniqueKey := uniqueKey;
      Project := project;
      Fields := map[];
      FieldOrder := [];
    }

    /** String(): the form's name behind a fixed label. */
    function String(): (s: string)
      ensures HasPrefix(s, "REDCAP Form: ") && s[|"REDCAP Form: "|..] == Name
    {
      "REDCAP Form: " + Name
    }

    /** containsField: whether some stored field has the given field's name;
        for a valid form, whether a field of that name was ever added. */
    method ContainsField(field: RedcapField) returns (found: bool)
      ensures found <==> exists name :: name in Fields && Fields[name].fieldName == field.fieldName
      ensures Valid() ==>
        (found <==> exists i :: 0 <= i < |FieldOrder| && FieldOrder[i].fieldName == field.fieldName)
    {
      var remaining := Fields.Keys;
      while remaining != {}
        invariant remaining <= Fields.Keys
        invariant forall name :: name in Fields && name !in remaining ==> Fields[name].fieldName != field.fieldName
        decreases remaining
      {
        var name :| name in remaining;
        if Fields[name].fieldName == field.fieldName {
          found := true;
          ValidLookup(field.fieldName);
          return;
        }
        remaining := remaining - {name};
      }
      found := false;
      ValidLookup(field.fieldName);
    }

    /** In a valid form, a name is a key exactly when a field of that name was added. */
    lemma ValidLookup(name: string)
      ensures Valid() ==>
        && ((exists k :: k in Fields && Fields[k].fieldName == name) <==> name in Fields)
        && (name in Fields <==> exists i :: 0 <= i < |FieldOrder| && FieldOrder[i].fieldName == name)
    {
      if Valid() {
        FieldIndexByName(FieldOrder);
        if exists i :: 0 <= i < |FieldOrder| && FieldOrder[i].fieldName == name {
          var _ := FieldIndexHoldsLastField(FieldOrder, name);
        } else {
          FieldIndexOnlyAddedNames(FieldOrder, name);
        }
      }
    }

    /** addFieldToForm: files the field under its name, replacing an earlier
        field of that name, and appends it to the insertion order. */
    method AddFieldToForm(field: RedcapField)
      modifies this
      ensures Fields == old(Fields)[field.fieldName := field]
      ensures FieldOrder == old(FieldOrder) + [field]
      ensures old(Valid()) ==> Valid()
    {
      Fields := Fields[field.fieldName := field];
      FieldOrder := FieldOrder + [field];
      assert FieldOrder[..|FieldOrder| - 1] == old(FieldOrder);
    }

    /** ToSQL: the CREATE TABLE statement of the form for "postgres" (whose
        event column follows the project's events), and "" otherwise. */
    method ToSQL(db: string) returns (s: string)
      requires db == POSTGRES ==> Project != null
      ensures s == Statement(db, Name, UniqueKey.fieldName, db == POSTGRES && Project.Events.Some?, FieldOrder)
    {
      if db != POSTGRES {
        return "";
      }
      var key := UniqueKey.fieldName;
      var longitudinal := Project.Events.Some?;
      FormOpening(Name, key);
      s := "\nCREATE TABLE " + Name + "\n(\n";
      s := s + "\t" + key + " text,\n";
      if longitudinal {
        s := s + "\tredcap_event_name text,\n";
      }
      ghost var opening := s;
      var body := BodyDefinitions(FieldOrder, key);
      s := s + body;
      s := s + "\tform_status text,\n";
      FormClosing(Name, key, longitudinal, FieldOrder, opening, body);
      s := TrimRight(s, ",\n") + "\n);";
    }
  }

  /** RedcapForm.ToSQL's loop over the fields in insertion order: the
      definitions of every field's columns. */
  method BodyDefinitions(fields: seq<RedcapField>, key: string) returns (t: string)
    ensures t == Terminated(BodyColumns(fields, key))
  {
    t := "";
    var i := 0;
    while i < |fields|
      invariant 0 <= i <= |fields|
      invariant t == Terminated(BodyColumns(fields[..i], key))
    {
      var definitions := FieldDefinitions(fields[i], key);
      ghost var t0 := t;
      t := t + definitions;
      assert t == Terminated(BodyColumns(fields[..i + 1], key)) by {
        TerminatedAppend(BodyColumns(fields[..i], key), FieldColumns(fields[i], key));
        BodyColumnsStep(fields, i, key);
      }
      i := i + 1;
    }
    assert fields[..i] == fields;
  }

  /** The body of RedcapForm.ToSQL's loop for one field: a definition per
      checkbox choice, nothing for the unique key, or the field's own
      definition, each followed by ",\n". */
  method FieldDefinitions(field: RedcapField, key: string) returns (t: string)
    ensures t == Terminated(FieldColumns(field, key))
  {
    t := "";
    if |field.choices| > 0 && field.fieldType == "checkbox" {
      t := CheckboxDefinitions(field.fieldName, field.choices);
    } else if field.fieldName == key {
      // the unique key is already the first column
    } else {
      AppendColumn("", [], field.fieldName);
      t := t + "\t" + field.fieldName + " text,\n";
    }
  }

  /** RedcapForm.ToSQL's loop over a checkbox's choices: one definition per
      choice, named after the field and the choice's id. */
  method CheckboxDefinitions(name: string, choices: seq<RedcapFieldChoice>) returns (t: string)
    ensures t == Terminated(CheckboxColumns(name, choices))
  {
    t := "";
    var j := 0;
    while j < |choices|
      invariant 0 <= j <= |choices|
      invariant t == Terminated(CheckboxColumns(name, choices[..j]))
    {
      var column := name + "___" + FormatInt(choices[j].id);
      CheckboxColumnsStep(name, choices, j);
      ghost var before := CheckboxColumns(name, choices[..j]);
      AppendColumn("", before, column);
      assert "" + Terminated(before) == t;
      t := t + "\t" + column + " text,\n";
      j := j + 1;
    }
    assert choices[..j] == choices;
  }

  // ---------------------------------------------------------------------------
  // RedcapProject

  class RedcapProject {
    var Forms: map<string, RedcapForm>
    const Token: string
    const Url: string
    var FieldLabels: seq<string>
    var UniqueKey: RedcapField
    var Metadata: Option<seq<RedcapField>>
    var Events: Option<seq<RedcapEvent>>
    /** The forms this project has filed, for reads and modifies clauses. */
    ghost var FormSet: set<RedcapForm>

    /** Every filed form is in FormSet. */
    ghost predicate FormsFiled()
      reads this
    {
      forall name :: name in Forms ==> Forms[name] in FormSet
    }

    /** Every form is filed under its own name (so no form is filed under
        two names), belongs to this project and is keyed by the project's
        unique key. */
    ghost predicate FormsOwned()
      reads this, FormSet
    {
      && FormsFiled()
      && (forall name :: name in Forms ==>
            && Forms[name].Name == name
            && Forms[name].Project == this
            && Forms[name].UniqueKey == UniqueKey)
    }

    /** Every form keeps its index in step with its field order. */
    ghost predicate FormsValid()
      requires FormsFiled()
      reads this, FormSet
    {
      forall name :: name in Forms ==> Forms[name].Valid()
    }

    /** Cached metadata is never empty and its first field is the unique key;
        there are forms only once the metadata is cached, and they are owned
        as FormsOwned says. */
    ghost predicate Valid()
      reads this, FormSet
    {
      && (Metadata.Some? ==> |Metadata.value| >= 1 && UniqueKey == Metadata.value[0])
      && (Metadata.None? ==> Forms == map[])
      && FormsOwned()
      && FormsValid()
    }

    /** Each form's contents, by form name. */
    ghost function FormStates(): map<string, FormState>
      requires FormsFiled()
      reads this, FormSet
    {
      map name | name in Forms :: FormState(Forms[name].Fields, Forms[name].FieldOrder)
    }

    /** The project literal of NewRedcapProject: only the URL and the token. */
    constructor(url: string, token: string)
      ensures Url == url && Token == token
      ensures Forms == map[] && FieldLabels == [] && UniqueKey == ZERO_FIELD
      ensures Metadata.None? && Events.None?
      ensures Valid()
    {
      Url := url;
      Token := token;
      Forms := map[];
      FormSet := {};
      FieldLabels := [];
      UniqueKey := ZERO_FIELD;
      Metadata := None;
      Events := None;
    }

    /** The metadata GetMetadata gives back: the cached list, or else the
        fetched one. */
    function MetadataAfter(response: Result<seq<map<string, string>>>): Result<seq<RedcapField>>
      reads this
    {
      if Metadata.Some? then Ok(Metadata.value) else FetchMetadata(response)
    }

    /** containsForm: whether some form has the name; for a valid project,
        whether a form is filed under it. */
    method ContainsForm(name: string) returns (found: bool)
      ensures found <==> exists k :: k in Forms && Forms[k].Name == name
      ensures (forall k :: k in Forms ==> Forms[k].Name == k) ==> (found <==> name in Forms)
    {
      var remaining := Forms.Keys;
      while remaining != {}
        invariant remaining <= Forms.Keys
        invariant forall k :: k in Forms && k !in remaining ==> Forms[k].Name != name
        decreases remaining
      {
        var k :| k in remaining;
        if Forms[k].Name == name {
          return true;
        }
        remaining := remaining - {k};
      }
      return false;
    }

    /** GetMetadata: the cached metadata without a fetch; otherwise the
        response is decoded, its first field becomes the unique key and the
        list is cached. Nothing else changes. */
    method GetMetadata(response: Result<seq<map<string, string>>>) returns (r: Result<seq<RedcapField>>)
      modifies this`UniqueKey, this`Metadata
      ensures r == old(MetadataAfter(response))
      ensures old(Metadata).Some? ==> Metadata == old(Metadata) && UniqueKey == old(UniqueKey)
      ensures old(Metadata).None? && r.Ok? ==> Metadata == Some(r.value) && UniqueKey == r.value[0]
      ensures r.Err? ==> Metadata == old(Metadata) && UniqueKey == old(UniqueKey)
      ensures Forms == old(Forms) && FieldLabels == old(FieldLabels) && Events == old(Events)
      ensures old(Valid()) ==> Valid()
    {
      if Metadata.Some? {
        return Ok(Metadata.value);
      }
      var records :- response;
      var fields :- DecodeMetadata(records);
      if |fields| == 0 {
        return Err(EmptyMetadata);
      }
      UniqueKey := fields[0];
      Metadata := Some(fields);
      r := Ok(fields);
    }

    /** GetFieldLabels: one label per metadata field, in metadata order, also
        kept in FieldLabels. */
    method GetFieldLabels(response: Result<seq<map<string, string>>>) returns (r: Result<seq<string>>)
      modifies this`UniqueKey, this`Metadata, this`FieldLabels
      ensures var m := old(MetadataAfter(response));
        && (m.Err? ==> r == Err(m.error))
        && (m.Ok? ==> r.Ok? && Metadata == Some(m.value) && FieldLabels == r.value
                      && |r.value| == |m.value|
                      && forall i :: 0 <= i < |m.value| ==> r.value[i] == m.value[i].fieldLabel)
      ensures Forms == old(Forms) && Events == old(Events)
      ensures old(Valid()) ==> Valid()
    {
      var fields :- GetMetadata(response);
      var labels: seq<string> := [];
      var i := 0;
      while i < |fields|
        invariant 0 <= i <= |fields|
        invariant |labels| == i
        invariant forall j :: 0 <= j < i ==> labels[j] == fields[j].fieldLabel
      {
        labels := labels + [fields[i].fieldLabel];
        i := i + 1;
      }
      FieldLabels := labels;
      r := Ok(labels);
    }

    /** GetForms: rebuilds the forms from the metadata, one new form per
        distinct form name, each holding that form's fields in metadata
        order; every form is new, of this project and keyed by the project's
        unique key. */
    method GetForms(response: Result<seq<map<string, string>>>) returns (r: Result<map<string, RedcapForm>>)
      modifies this`Forms, this`FormSet, this`UniqueKey, this`Metadata
      ensures var m := old(MetadataAfter(response));
        && (m.Err? ==> r == Err(m.error) && Forms == map[])
        && (m.Ok? ==> r == Ok(Forms) && Metadata == Some(m.value)
                      && (forall name :: name in Forms <==> name in FormNames(m.value))
                      && forall name :: name in Forms ==>
                           && fresh(Forms[name])
                           && Forms[name].FieldOrder == FieldsOf(m.value, name)
                           && Forms[name].UniqueKey == UniqueKey)
      ensures FieldLabels == old(FieldLabels) && Events == old(Events)
      ensures old(Valid()) ==> Valid()
    {
      Forms := map[];
      FormSet := {};
      var fields :- GetMetadata(response);
      BuildForms(fields);
      r := Ok(Forms);
    }

    /** GetForms' loop: one new form per distinct form name, in order of
        first appearance, and every field added to the form of its name. */
    method BuildForms(fields: seq<RedcapField>)
      requires Forms == map[] && FormSet == {}
      modifies this`Forms, this`FormSet
      ensures FormsOwned() && FormsValid()
      ensures forall name :: name in Forms <==> name in FormNames(fields)
      ensures forall name :: name in Forms ==> fresh(Forms[name]) && Forms[name].FieldOrder == FieldsOf(fields, name)
    {
      var i := 0;
      while i < |fields|
        invariant 0 <= i <= |fields|
        invariant FormsOwned()
        invariant FormStates() == Filed(fields[..i])
        invariant forall form :: form in FormSet ==> fresh(form)
      {
        FileField(fields[i]);
        assert fields[..i + 1][..i] == fields[..i];
        i := i + 1;
      }
      assert fields[..i] == fields;
      FiledFormsByName(fields);
    }

    /** Forms holding what filing the fields gives hold, per form name, that
        form's fields in metadata order, and each keeps its index in step. */
    lemma FiledFormsByName(fields: seq<RedcapField>)
      requires FormsFiled() && FormStates() == Filed(fields)
      ensures FormsValid()
      ensures forall name :: name in Forms <==> name in FormNames(fields)
      ensures forall name :: name in Forms ==> Forms[name].FieldOrder == FieldsOf(fields, name)
    {
      FiledByForm(fields);
      forall name | name in Forms
        ensures Forms[name].FieldOrder == FieldsOf(fields, name) && Forms[name].Valid()
      {
        assert FormStates()[name] == Filed(fields)[name];
      }
    }

    /** GetForms' loop body: a new form for a form name not seen before, and
        the field added to the form of its name. */
    method FileField(field: RedcapField)
      requires FormsOwned()
      modifies this`Forms, this`FormSet, FormSet
      ensures FormsOwned()
      ensures var name := field.formName;
        var before := old(FormStates());
        FormStates() == before[name := Added(if name in before then before[name] else EMPTY_FORM, field)]
      ensures forall form :: form in FormSet ==> form in old(FormSet) || fresh(form)
    {
      var name := field.formName;
      var present := ContainsForm(name);
      ghost var filed := FormStates();
      if !present {
        FileFirstField(field);
      } else {
        assert name in filed;
        AddToFiledForm(field);
      }
    }

    /** FileField for a form name not seen before: a new form holding just
        the field. */
    method FileFirstField(field: RedcapField)
      requires FormsOwned() && field.formName !in Forms
      modifies this`Forms, this`FormSet
      ensures FormsOwned()
      ensures FormStates() == old(FormStates())[field.formName := Added(EMPTY_FORM, field)]
      ensures forall form :: form in FormSet ==> form in old(FormSet) || fresh(form)
    {
      ghost var filed := FormStates();
      FileNewForm(field.formName);
      AddToFiledForm(field);
      MapOverride(filed, field.formName, EMPTY_FORM, Added(EMPTY_FORM, field));
    }

    /** GetForms' new form: created with the name, this project and its
        unique key, and filed under the name with no fields. */
    method FileNewForm(name: string)
      requires FormsOwned() && name !in Forms
      modifies this`Forms, this`FormSet
      ensures FormsOwned()
      ensures name in Forms && fresh(Forms[name]) && FormSet == old(FormSet) + {Forms[name]}
      ensures FormStates() == old(FormStates())[name := EMPTY_FORM]
    {
      var form := new RedcapForm(name, UniqueKey, this);
      Forms := Forms[name := form];
      FormSet := FormSet + {form};
    }

    /** GetForms' addFieldToForm call: the field joins the form of its name;
        the project's map and every other form stay as they were. */
    method AddToFiledForm(field: RedcapField)
      requires FormsOwned() && field.formName in Forms
      modifies Forms[field.formName]
      ensures FormsOwned()
      ensures FormStates() == old(FormStates())[field.formName := Added(old(FormStates())[field.formName], field)]
    {
      Forms[field.formName].AddFieldToForm(field);
    }

    /** The statements of the forms named by `order`, one after the other;
        the event column follows this project's events. */
    function Statements(db: string, order: seq<string>): string
      reads this, Forms.Values
      decreases |order|
    {
      if order == [] then ""
      else if order[|order| - 1] !in Forms then Statements(db, order[..|order| - 1])
      else
        var form := Forms[order[|order| - 1]];
        Statements(db, order[..|order| - 1])
          + Statement(db, form.Name, form.UniqueKey.fieldName, db == POSTGRES && Events.Some?, form.FieldOrder)
    }

    /** Only "postgres" has statements: for any other dialect every form
        contributes nothing. */
    lemma {:induction false} OtherDialectWritesNothing(db: string, order: seq<string>)
      requires db != POSTGRES
      ensures Statements(db, order) == ""
      decreases |order|
    {
      if order != [] {
        OtherDialectWritesNothing(db, order[..|order| - 1]);
      }
    }

    /** ToSQL: every form's statement, in the iteration order `order` (which
        lists each form once); nothing for no forms or another dialect. */
    method ToSQL(db: string, order: seq<string>) returns (s: string)
      requires FormsOwned()
      requires forall name :: name in Forms <==> name in order
      requires forall p, q :: 0 <= p < q < |order| ==> order[p] != order[q]
      ensures s == Statements(db, order)
      ensures Forms == map[] || db != POSTGRES ==> s == ""
    {
      s := "";
      var i := 0;
      while i < |order|
        invariant 0 <= i <= |order|
        invariant s == Statements(db, order[..i])
      {
        var form := Forms[order[i]];
        assert form.Project == this;
        var part := form.ToSQL(db);
        assert order[..i + 1][..i] == order[..i];
        s := s + part;
        i := i + 1;
      }
      assert order[..i] == order;
      if db != POSTGRES {
        OtherDialectWritesNothing(db, order);
      }
    }

    /** initialize: fetches the metadata once, then lists the labels and
        builds the forms from the cached metadata. */
    method Initialize(response: Result<seq<map<string, string>>>) returns (r: Result<map<string, RedcapForm>>)
      modifies this`Forms, this`FormSet, this`UniqueKey, this`Metadata, this`FieldLabels
      ensures var m := old(MetadataAfter(response));
        && (m.Err? ==> r.Err? && r.error == m.error)
        && (m.Ok? ==> r == Ok(Forms) && Metadata == Some(m.value)
                      && |FieldLabels| == |m.value|
                      && (forall i :: 0 <= i < |m.value| ==> FieldLabels[i] == m.value[i].fieldLabel)
                      && (forall name :: name in Forms <==> name in FormNames(m.value))
                      && forall name :: name in Forms ==>
                           fresh(Forms[name]) && Forms[name].FieldOrder == FieldsOf(m.value, name))
      ensures old(Valid()) ==> Valid()
    {
      var fields :- GetMetadata(response);
      var labels := GetFieldLabels(response);
      r := GetForms(response);
    }
  }

  /** NewRedcapProject: a project with the URL and the token, initialized
      from the response when asked to. */
  method NewRedcapProject(url: string, token: string, initialize: bool,
                          response: Result<seq<map<string, string>>>)
    returns (r: Result<RedcapProject>)
    ensures r.Ok? ==> fresh(r.value) && r.value.Url == url && r.value.Token == token && r.value.Valid()
    ensures !initialize ==> r.Ok? && r.value.Forms == map[] && r.value.Metadata.None?
    ensures initialize ==> (r.Ok? <==> FetchMetadata(response).Ok?)
    ensures initialize && r.Ok? ==>
      var fields := FetchMetadata(response).value;
      && r.value.Metadata == Some(fields)
      && |r.value.FieldLabels| == |fields|
      && (forall i :: 0 <= i < |fields| ==> r.value.FieldLabels[i] == fields[i].fieldLabel)
      && (forall name :: name in r.value.Forms <==> name in FormNames(fields))
      && forall name :: name in r.value.Forms ==> r.value.Forms[name].FieldOrder == FieldsOf(fields, name)
  {
    var project := new RedcapProject(url, token);
    if initialize {
      var forms := project.Initialize(response);
      if forms.Err? {
        return Err(forms.error);
      }
    }
    r := Ok(project);
  }
}
