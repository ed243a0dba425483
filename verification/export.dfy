/** The form values of an export-records request (redcap/project.go,
    ExportRecords): the caller's parameters with their defaults filled in,
    the list filters joined with commas and the flags written as booleans. */
module Export {
  import opened GoStrings

  datatype ExportParameters = ExportParameters(
    records: seq<string>,
    fields: seq<string>,
    forms: seq<string>,
    events: seq<string>,
    rawOrLabel: string,
    eventName: string,
    format: string,
    exportSurveyFields: bool,
    exportDataAccessGroups: bool,
    exportCheckboxLabel: bool)

  const DEFAULT_RAW_OR_LABEL := "raw"
  const DEFAULT_EVENT_NAME := "label"
  const DEFAULT_FORMAT := "json"

  /** The request's keys, in the order `ExportRecords` lists them. */
  const REQUEST_KEYS: seq<string> := [
    "token", "content", "records", "fields", "forms", "events", "rawOrLabel",
    "eventName", "format", "exportSurveyFields", "exportDataAccessGroups", "exportCheckboxLabel"]

  function OrDefault(value: string, default: string): string {
    if value == "" then default else value
  }

  /** The parameters with an empty rawOrLabel, eventName or format replaced
      by its default ("raw", "label", "json"): those three are never empty
      afterwards, a setting the caller gave is kept, and nothing else changes. */
  function WithDefaults(p: ExportParameters): (q: ExportParameters)
    ensures q.rawOrLabel != "" && q.eventName != "" && q.format != ""
    ensures p.rawOrLabel != "" ==> q.rawOrLabel == p.rawOrLabel
    ensures p.eventName != "" ==> q.eventName == p.eventName
    ensures p.format != "" ==> q.format == p.format
    ensures p.rawOrLabel == "" ==> q.rawOrLabel == DEFAULT_RAW_OR_LABEL
    ensures p.eventName == "" ==> q.eventName == DEFAULT_EVENT_NAME
    ensures p.format == "" ==> q.format == DEFAULT_FORMAT
    ensures q.(rawOrLabel := p.rawOrLabel, eventName := p.eventName, format := p.format) == p
  {
    p.(rawOrLabel := OrDefault(p.rawOrLabel, DEFAULT_RAW_OR_LABEL),
       eventName := OrDefault(p.eventName, DEFAULT_EVENT_NAME),
       format := OrDefault(p.format, DEFAULT_FORMAT))
  }

  /** The values of an export-records request, one per form key. */
  datatype RecordRequest = RecordRequest(
    token: string,
    content: string,
    records: string,
    fields: string,
    forms: string,
    events: string,
    rawOrLabel: string,
    eventName: string,
    format: string,
    exportSurveyFields: string,
    exportDataAccessGroups: string,
    exportCheckboxLabel: string)

  /** ExportRecords' request: the token and the "record" content, the list
      filters joined with commas, the defaulted settings, and each flag as
      "true" exactly when it is set and "false" otherwise. */
  function ExportRequest(token: string, p: ExportParameters): (r: RecordRequest)
    ensures r.token == token && r.content == "record"
    ensures var q := WithDefaults(p);
      r.rawOrLabel == q.rawOrLabel && r.eventName == q.eventName && r.format == q.format
    ensures r.exportSurveyFields == (if p.exportSurveyFields then "true" else "false")
    ensures r.exportDataAccessGroups == (if p.exportDataAccessGroups then "true" else "false")
    ensures r.exportCheckboxLabel == (if p.exportCheckboxLabel then "true" else "false")
  {
    var q := WithDefaults(p);
    RecordRequest(
      token, "record",
      Join(q.records, ","), Join(q.fields, ","), Join(q.forms, ","), Join(q.events, ","),
      q.rawOrLabel, q.eventName, q.format,
      FormatBool(q.exportSurveyFields), FormatBool(q.exportDataAccessGroups), FormatBool(q.exportCheckboxLabel))
  }

  /** The request as the url.Values posted to the project's URL: its keys
      are exactly the twelve request keys. */
  function FormValues(r: RecordRequest): (values: map<string, string>)
    ensures forall key :: key in values <==> key in REQUEST_KEYS
  {
    map[
      "token" := r.token,
      "content" := r.content,
      "records" := r.records,
      "fields" := r.fields,
      "forms" := r.forms,
      "events" := r.events,
      "rawOrLabel" := r.rawOrLabel,
      "eventName" := r.eventName,
      "format" := r.format,
      "exportSurveyFields" := r.exportSurveyFields,
      "exportDataAccessGroups" := r.exportDataAccessGroups,
      "exportCheckboxLabel" := r.exportCheckboxLabel]
  }

  /** The request's fields, in the order of `REQUEST_KEYS`. */
  function RequestFields(r: RecordRequest): (fields: seq<string>)
    ensures |fields| == |REQUEST_KEYS|
  {
    [r.token, r.content, r.records, r.fields, r.forms, r.events, r.rawOrLabel,
     r.eventName, r.format, r.exportSurveyFields, r.exportDataAccessGroups, r.exportCheckboxLabel]
  }

  /** Each posted key carries the request field of the same name. */
  lemma FormValuesCarryFields(r: RecordRequest)
    ensures forall i :: 0 <= i < |REQUEST_KEYS| ==>
      REQUEST_KEYS[i] in FormValues(r) && FormValues(r)[REQUEST_KEYS[i]] == RequestFields(r)[i]
  {
  }

  /** Filling in the defaults twice is filling them in once. */
  lemma DefaultsIdempotent(p: ExportParameters)
    ensures WithDefaults(WithDefaults(p)) == WithDefaults(p)
  {
  }

  /** A filter of comma-free names is recovered by splitting its joined
      value at the commas, and an empty filter is the empty value. */
  lemma FilterRoundTrip(names: seq<string>)
    ensures names == [] ==> Join(names, ",") == ""
    ensures names != [] && (forall i :: 0 <= i < |names| ==> ',' !in names[i]) ==>
      Split(Join(names, ","), ',') == names
  {
    if names != [] && (forall i :: 0 <= i < |names| ==> ',' !in names[i]) {
      SplitJoin(names, ',');
    }
  }

  /** ExportRecords' four list filters each round-trip through their
      request values. */
  lemma RequestFilterRoundTrip(token: string, p: ExportParameters)
    ensures var r := ExportRequest(token, p);
      && (p.records == [] ==> r.records == "")
      && (p.fields == [] ==> r.fields == "")
      && (p.forms == [] ==> r.forms == "")
      && (p.events == [] ==> r.events == "")
      && (p.records != [] && (forall i :: 0 <= i < |p.records| ==> ',' !in p.records[i]) ==>
            Split(r.records, ',') == p.records)
      && (p.fields != [] && (forall i :: 0 <= i < |p.fields| ==> ',' !in p.fields[i]) ==>
            Split(r.fields, ',') == p.fields)
      && (p.forms != [] && (forall i :: 0 <= i < |p.forms| ==> ',' !in p.forms[i]) ==>
            Split(r.forms, ',') == p.forms)
      && (p.events != [] && (forall i :: 0 <= i < |p.events| ==> ',' !in p.events[i]) ==>
            Split(r.events, ',') == p.events)
  {
    FilterRoundTrip(p.records);
    FilterRoundTrip(p.fields);
    FilterRoundTrip(p.forms);
    FilterRoundTrip(p.events);
  }
}
