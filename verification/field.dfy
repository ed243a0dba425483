/** One REDCap metadata field and its choices (redcap/field.go): the decoding
    of a flat, string-keyed metadata record into a RedcapField. */
module Fields {
  import opened Outcomes
  import opened GoStrings

  datatype RedcapFieldChoice = RedcapFieldChoice(id: int, labelText: string)

  datatype RedcapField = RedcapField(
    branchingLogic: string,
    customAlignment: string,
    fieldLabel: string,
    fieldName: string,
    fieldNote: string,
    fieldType: string,
    formName: string,
    identifier: string,
    matrixGroupName: string,
    matrixRanking: string,
    questionNumber: string,
    requiredField: bool,
    sectionHeader: string,
    choices: seq<RedcapFieldChoice>,
    calculations: string,
    textValidationMax: string,
    textValidationMin: string,
    textValidationTypeOrShowSliderNumber: string,
    value: string)

  /** The zero value of the Go struct: every text empty, no choices, not required. */
  const ZERO_FIELD := RedcapField("", "", "", "", "", "", "", "", "", "", "", false, "", [], "", "", "", "", "")

  /** The fifteen string attributes, in the order the decoder reads them. */
  const SCALAR_KEYS: seq<string> := [
    "branching_logic", "custom_alignment", "field_label", "field_name", "field_note",
    "field_type", "form_name", "identifier", "matrix_group_name", "matrix_ranking",
    "question_number", "section_header", "text_validation_max", "text_validation_min",
    "text_validation_type_or_show_slider_number"]

  const CHOICES_KEY := "select_choices_or_calculations"
  const REQUIRED_KEY := "required_field"

  /** The field types whose choice string is parsed into choices. */
  predicate HasChoices(fieldType: string) {
    fieldType == "checkbox" || fieldType == "dropdown" || fieldType == "radio"
  }

  /** `tmp[key].(string)`: the value, or the failure of the type assertion on an absent key. */
  function Lookup(record: map<string, string>, key: string): Result<string> {
    if key in record then Ok(record[key]) else Err(MissingKey(key))
  }

  // ---------------------------------------------------------------------------
  // Choice strings: "1, Yes | 2, No"

  /** One trimmed, non-empty segment "id,label": the id is Atoi of the text
      before the first comma, the label the text between the first and the
      second comma. */
  function ParseChoice(segment: string): Result<RedcapFieldChoice> {
    var parts := Split(segment, ',');
    match Atoi(parts[0])
    case None => Err(BadChoiceId(segment))
    case Some(id) =>
      if |parts| < 2 then Err(MissingChoiceLabel(segment))
      else Ok(RedcapFieldChoice(id, parts[1]))
  }

  /** The trimmed segments that are not empty, in order. */
  function NonEmptySegments(segments: seq<string>): seq<string>
    decreases |segments|
  {
    if segments == [] then []
    else
      var segment := TrimSpace(segments[|segments| - 1]);
      NonEmptySegments(segments[..|segments| - 1]) + (if segment == "" then [] else [segment])
  }

  /** The choices of the pipe-separated segments, in segment order; the first
      segment that does not parse is the error. */
  function ParseChoices(segments: seq<string>): Result<seq<RedcapFieldChoice>>
    decreases |segments|
  {
    if segments == [] then Ok([])
    else
      var choices :- ParseChoices(segments[..|segments| - 1]);
      var segment := TrimSpace(segments[|segments| - 1]);
      if segment == "" then Ok(choices)
      else
        var choice :- ParseChoice(segment);
        Ok(choices + [choice])
  }

  /** The first `n` kept segments all parse. */
  predicate ParseUpTo(kept: seq<string>, n: nat)
    requires n <= |kept|
  {
    forall j :: 0 <= j < n ==> ParseChoice(kept[j]).Ok?
  }

  /** The choice list holds one choice per non-empty trimmed segment, in
      segment order, and it exists exactly when every such segment parses. */
  lemma {:induction false} ParseChoicesMatchesSegments(segments: seq<string>)
    ensures var kept := NonEmptySegments(segments);
      ParseChoices(segments).Ok? <==> ParseUpTo(kept, |kept|)
    ensures var kept := NonEmptySegments(segments);
      ParseChoices(segments).Ok? ==>
        && |ParseChoices(segments).value| == |kept|
        && forall k :: 0 <= k < |kept| ==> ParseChoices(segments).value[k] == ParseChoice(kept[k]).value
    decreases |segments|
  {
    if segments != [] {
      var n := |segments| - 1;
      var prefix := segments[..n];
      ParseChoicesMatchesSegments(prefix);
      var keptBefore := NonEmptySegments(prefix);
      var kept := NonEmptySegments(segments);
      var segment := TrimSpace(segments[n]);
      if segment == "" {
        assert kept == keptBefore;
      } else {
        KeptSnoc(keptBefore, segment);
      }
    }
  }

  /** One more kept segment: all of them parse iff the earlier ones and it do. */
  lemma KeptSnoc(kept: seq<string>, segment: string)
    ensures ParseUpTo(kept + [segment], |kept| + 1) <==> ParseUpTo(kept, |kept|) && ParseChoice(segment).Ok?
    ensures forall k :: 0 <= k < |kept| ==> (kept + [segment])[k] == kept[k]
  {
    var longer := kept + [segment];
    assert longer[|kept|] == segment;
    if ParseUpTo(longer, |kept| + 1) {
      assert forall j :: 0 <= j < |kept| ==> longer[j] == kept[j];
    }
  }

  /** When the choice list fails, it fails with the error of the first
      non-empty trimmed segment that does not parse: `k` is its position. */
  lemma {:induction false} ParseChoicesFirstError(segments: seq<string>) returns (k: nat)
    requires ParseChoices(segments).Err?
    ensures var kept := NonEmptySegments(segments);
      && k < |kept| && ParseUpTo(kept, k)
      && ParseChoice(kept[k]) == Err(ParseChoices(segments).error)
    decreases |segments|
  {
    var n := |segments| - 1;
    var prefix := segments[..n];
    if ParseChoices(prefix).Err? {
      k := ParseChoicesFirstError(prefix);
    } else {
      ParseChoicesMatchesSegments(prefix);
      k := |NonEmptySegments(prefix)|;
    }
  }

  /** One more segment: ParseChoices unfolded once at the end of the list,
      which either adds nothing (a blank segment) or that segment's choice. */
  lemma ParseChoicesStep(segments: seq<string>, i: nat)
    requires i < |segments|
    ensures ParseChoices(segments[..i + 1])
            == match ParseChoices(segments[..i])
               case Err(e) => Err(e)
               case Ok(choices) =>
                 if TrimSpace(segments[i]) == "" then Ok(choices)
                 else match ParseChoice(TrimSpace(segments[i]))
                      case Err(e) => Err(e)
                      case Ok(choice) => Ok(choices + [choice])
  {
    assert segments[..i + 1][..i] == segments[..i];
  }

  /** Once a prefix of the segments fails, the whole list fails the same way. */
  lemma {:induction false} ParseChoicesFailsEarly(segments: seq<string>, n: nat)
    requires n <= |segments|
    requires ParseChoices(segments[..n]).Err?
    ensures ParseChoices(segments) == ParseChoices(segments[..n])
    decreases |segments| - n
  {
    if n < |segments| {
      var longer := segments[..n + 1];
      assert longer[..n] == segments[..n];
      ParseChoicesFailsEarly(segments, n + 1);
    } else {
      assert segments[..n] == segments;
    }
  }

  // ---------------------------------------------------------------------------
  // The whole record

  /** UnmarshalJSON's meaning: the field decoded from `record`, or the first failure. */
  function Decode(record: map<string, string>): Result<RedcapField> {
    var branchingLogic :- Lookup(record, "branching_logic");
    var customAlignment :- Lookup(record, "custom_alignment");
    var fieldLabel :- Lookup(record, "field_label");
    var fieldName :- Lookup(record, "field_name");
    var fieldNote :- Lookup(record, "field_note");
    var fieldType :- Lookup(record, "field_type");
    var formName :- Lookup(record, "form_name");
    var identifier :- Lookup(record, "identifier");
    var matrixGroupName :- Lookup(record, "matrix_group_name");
    var matrixRanking :- Lookup(record, "matrix_ranking");
    var questionNumber :- Lookup(record, "question_number");
    var sectionHeader :- Lookup(record, "section_header");
    var textValidationMax :- Lookup(record, "text_validation_max");
    var textValidationMin :- Lookup(record, "text_validation_min");
    var textValidationType :- Lookup(record, "text_validation_type_or_show_slider_number");
    var choices :-
      if HasChoices(fieldType) then
        var raw :- Lookup(record, CHOICES_KEY);
        ParseChoices(Split(raw, '|'))
      else Ok([]);
    var calculations :-
      if !HasChoices(fieldType) && fieldType == "calc" then Lookup(record, CHOICES_KEY) else Ok("");
    var required :- Lookup(record, REQUIRED_KEY);
    Ok(RedcapField(branchingLogic, customAlignment, fieldLabel, fieldName, fieldNote, fieldType,
                   formName, identifier, matrixGroupName, matrixRanking, questionNumber,
                   required == "Y", sectionHeader, choices, calculations, textValidationMax,
                   textValidationMin, textValidationType, ""))
  }

  /** Every attribute key that the decoder reads is in the record. */
  predicate HasScalarKeys(record: map<string, string>) {
    forall i :: 0 <= i < |SCALAR_KEYS| ==> SCALAR_KEYS[i] in record
  }

  /** A decoded field holds the record's own text for each of the fifteen
      attributes, the required flag is set exactly by "Y", the choices come
      from the choice string only for the three choice types, the formula
      is kept verbatim only for "calc", and the value starts empty. */
  lemma DecodeReadsRecord(record: map<string, string>)
    requires Decode(record).Ok?
    ensures var f := Decode(record).value;
      && HasScalarKeys(record) && REQUIRED_KEY in record
      && f.branchingLogic == record["branching_logic"]
      && f.customAlignment == record["custom_alignment"]
      && f.fieldLabel == record["field_label"]
      && f.fieldName == record["field_name"]
      && f.fieldNote == record["field_note"]
      && f.fieldType == record["field_type"]
      && f.formName == record["form_name"]
      && f.identifier == record["identifier"]
      && f.matrixGroupName == record["matrix_group_name"]
      && f.matrixRanking == record["matrix_ranking"]
      && f.questionNumber == record["question_number"]
      && f.sectionHeader == record["section_header"]
      && f.textValidationMax == record["text_validation_max"]
      && f.textValidationMin == record["text_validation_min"]
      && f.textValidationTypeOrShowSliderNumber == record["text_validation_type_or_show_slider_number"]
      && (f.requiredField <==> record[REQUIRED_KEY] == "Y")
      && (HasChoices(f.fieldType) ==> CHOICES_KEY in record && ParseChoices(Split(record[CHOICES_KEY], '|')) == Ok(f.choices))
      && (!HasChoices(f.fieldType) ==> f.choices == [])
      && (f.fieldType == "calc" ==> CHOICES_KEY in record && f.calculations == record[CHOICES_KEY])
      && (f.fieldType != "calc" ==> f.calculations == "")
      && f.value == ""
  {
  }

  /** Decoding succeeds exactly when every key it reads is present and, for a
      choice type, every non-empty choice segment parses. */
  lemma DecodeSucceeds(record: map<string, string>)
    ensures Decode(record).Ok? <==>
      && HasScalarKeys(record) && "field_type" in record && REQUIRED_KEY in record
      && (HasChoices(record["field_type"]) ==>
            CHOICES_KEY in record && ParseChoices(Split(record[CHOICES_KEY], '|')).Ok?)
      && (record["field_type"] == "calc" ==> CHOICES_KEY in record)
  {
    if Decode(record).Ok? {
      DecodeReadsRecord(record);
    } else if HasScalarKeys(record) {
      ScalarKeysPresent(record);
    }
  }

  /** The fifteen attribute keys by position. */
  lemma ScalarKeyNames()
    ensures SCALAR_KEYS[0] == "branching_logic"
      && SCALAR_KEYS[1] == "custom_alignment"
      && SCALAR_KEYS[2] == "field_label"
      && SCALAR_KEYS[3] == "field_name"
      && SCALAR_KEYS[4] == "field_note"
      && SCALAR_KEYS[5] == "field_type"
      && SCALAR_KEYS[6] == "form_name"
      && SCALAR_KEYS[7] == "identifier"
      && SCALAR_KEYS[8] == "matrix_group_name"
      && SCALAR_KEYS[9] == "matrix_ranking"
      && SCALAR_KEYS[10] == "question_number"
      && SCALAR_KEYS[11] == "section_header"
      && SCALAR_KEYS[12] == "text_validation_max"
      && SCALAR_KEYS[13] == "text_validation_min"
      && SCALAR_KEYS[14] == "text_validation_type_or_show_slider_number"
  {
  }

  /** HasScalarKeys spelled out key by key. */
  lemma ScalarKeysPresent(record: map<string, string>)
    requires HasScalarKeys(record)
    ensures "branching_logic" in record
      && "custom_alignment" in record
      && "field_label" in record
      && "field_name" in record
      && "field_note" in record
      && "field_type" in record
      && "form_name" in record
      && "identifier" in record
      && "matrix_group_name" in record
      && "matrix_ranking" in record
      && "question_number" in record
      && "section_header" in record
      && "text_validation_max" in record
      && "text_validation_min" in record
      && "text_validation_type_or_show_slider_number" in record
  {
    ScalarKeyNames();
  }

  /** The first attribute key missing from the record is the error. */
  lemma DecodeFirstMissingKey(record: map<string, string>, i: nat)
    requires i < |SCALAR_KEYS| && SCALAR_KEYS[i] !in record
    requires forall j :: 0 <= j < i ==> SCALAR_KEYS[j] in record
    ensures Decode(record) == Err(MissingKey(SCALAR_KEYS[i]))
  {
    assert forall j :: 0 <= j < i ==> SCALAR_KEYS[j] in record;
    ScalarKeyNames();
  }

  /** With every attribute present, a choice type fails on a missing choice
      string or on its first bad segment, before the required flag is read. */
  lemma DecodeChoiceFailure(record: map<string, string>)
    requires HasScalarKeys(record) && "field_type" in record && HasChoices(record["field_type"])
    ensures CHOICES_KEY !in record ==> Decode(record) == Err(MissingKey(CHOICES_KEY))
    ensures CHOICES_KEY in record && ParseChoices(Split(record[CHOICES_KEY], '|')).Err? ==>
      Decode(record) == ParseChoices(Split(record[CHOICES_KEY], '|')).PropagateFailure()
  {
    ScalarKeysPresent(record);
  }

  /** The required flag is read last: with everything before it in place, its
      absence is the error. */
  lemma DecodeRequiredMissing(record: map<string, string>)
    requires HasScalarKeys(record) && "field_type" in record && REQUIRED_KEY !in record
    requires HasChoices(record["field_type"]) ==>
      CHOICES_KEY in record && ParseChoices(Split(record[CHOICES_KEY], '|')).Ok?
    requires record["field_type"] == "calc" ==> CHOICES_KEY in record
    ensures Decode(record) == Err(MissingKey(REQUIRED_KEY))
  {
    ScalarKeysPresent(record);
  }

  /** The choice loop of UnmarshalJSON: splits `raw` on '|', trims each segment,
      skips the empty ones and appends the choice of every other one. */
  method ParseChoiceList(raw: string) returns (r: Result<seq<RedcapFieldChoice>>)
    ensures r == ParseChoices(Split(raw, '|'))
  {
    var segments := Split(raw, '|');
    var choices: seq<RedcapFieldChoice> := [];
    var i := 0;
    while i < |segments|
      invariant 0 <= i <= |segments|
      invariant ParseChoices(segments[..i]) == Ok(choices)
    {
      ParseChoicesStep(segments, i);
      var segment := TrimSpace(segments[i]);
      if segment != "" {
        var parts := Split(segment, ',');
        var id := Atoi(parts[0]);
        if id.None? {
          ParseChoicesFailsEarly(segments, i + 1);
          return Err(BadChoiceId(segment));
        }
        if |parts| < 2 {
          ParseChoicesFailsEarly(segments, i + 1);
          return Err(MissingChoiceLabel(segment));
        }
        choices := choices + [RedcapFieldChoice(id.value, parts[1])];
      }
      i := i + 1;
    }
    assert segments[..i] == segments;
    r := Ok(choices);
  }

  /** RedcapField.UnmarshalJSON on an already decoded JSON object: reads each
      attribute in turn, then builds the choice list segment by segment. */
  method UnmarshalJSON(record: map<string, string>) returns (r: Result<RedcapField>)
    ensures r == Decode(record)
  {
    var branchingLogic :- Lookup(record, "branching_logic");
    var customAlignment :- Lookup(record, "custom_alignment");
    var fieldLabel :- Lookup(record, "field_label");
    var fieldName :- Lookup(record, "field_name");
    var fieldNote :- Lookup(record, "field_note");
    var fieldType :- Lookup(record, "field_type");
    var formName :- Lookup(record, "form_name");
    var identifier :- Lookup(record, "identifier");
    var matrixGroupName :- Lookup(record, "matrix_group_name");
    var matrixRanking :- Lookup(record, "matrix_ranking");
    var questionNumber :- Lookup(record, "question_number");
    var sectionHeader :- Lookup(record, "section_header");
    var textValidationMax :- Lookup(record, "text_validation_max");
    var textValidationMin :- Lookup(record, "text_validation_min");
    var textValidationType :- Lookup(record, "text_validation_type_or_show_slider_number");

    var choices: seq<RedcapFieldChoice> := [];
    var calculations := "";
    if HasChoices(fieldType) {
      var raw :- Lookup(record, CHOICES_KEY);
      choices :- ParseChoiceList(raw);
    } else if fieldType == "calc" {
      calculations :- Lookup(record, CHOICES_KEY);
    }

    var required :- Lookup(record, REQUIRED_KEY);
    r := Ok(RedcapField(branchingLogic, customAlignment, fieldLabel, fieldName, fieldNote, fieldType,
                        formName, identifier, matrixGroupName, matrixRanking, questionNumber,
                        required == "Y", sectionHeader, choices, calculations, textValidationMax,
                        textValidationMin, textValidationType, ""));
  }

  // ---------------------------------------------------------------------------
  // What a choice segment means

  /** A segment whose id text has no comma: Atoi decides the id, and the label
      is what follows the first comma up to the next comma or the end. */
  lemma ParseChoiceOfParts(idText: string, labelText: string, rest: string)
    requires ',' !in idText && ',' !in labelText
    requires rest == [] || rest[0] == ','
    ensures ParseChoice(idText + "," + labelText + rest)
            == match Atoi(idText)
               case None => Err(BadChoiceId(idText + "," + labelText + rest))
               case Some(id) => Ok(RedcapFieldChoice(id, labelText))
  {
    var segment := idText + "," + labelText + rest;
    assert segment == idText + [','] + (labelText + rest);
    SplitAfterHead(idText, ',', labelText + rest);
    if rest == [] {
      assert labelText + rest == labelText;
      SplitWithoutSeparator(labelText, ',');
    } else {
      assert labelText + rest == labelText + [','] + rest[1..];
      SplitAfterHead(labelText, ',', rest[1..]);
    }
  }

  /** A segment without a comma: a bad id, or else a missing label. */
  lemma ParseChoiceWithoutComma(segment: string)
    requires ',' !in segment
    ensures ParseChoice(segment)
            == if Atoi(segment).None? then Err(BadChoiceId(segment)) else Err(MissingChoiceLabel(segment))
  {
    SplitWithoutSeparator(segment, ',');
  }

  /** Round trip: a choice written as "<id>,<label>" parses back to itself. */
  lemma ParseFormattedChoice(choice: RedcapFieldChoice)
    requires MIN_INT64 <= choice.id <= MAX_INT64
    requires ',' !in choice.labelText
    ensures ParseChoice(FormatInt(choice.id) + "," + choice.labelText) == Ok(choice)
  {
    FormatIntCharacters(choice.id);
    AtoiFormatInt(choice.id);
    ParseChoiceOfParts(FormatInt(choice.id), choice.labelText, []);
    assert FormatInt(choice.id) + "," + choice.labelText + [] == FormatInt(choice.id) + "," + choice.labelText;
  }
}
