/** schemas.js: the two static field catalogues, the sub-schema builder used
    for elicitation requests, and the declared tool parameters. */
module Schemas {
  import opened Wrappers
  import opened JsValue
  import opened Seqs
  import Config

  /** One field descriptor. `kind` is the JSON-schema `type`; absent
      constraints are None. */
  datatype FieldSchema = FieldSchema(
    kind: string,
    title: string,
    description: string,
    minLength: Option<int>,
    maxLength: Option<int>,
    minimum: Option<int>,
    maximum: Option<int>,
    format: Option<string>,
    enumKeys: Option<seq<string>>,
    enumNames: Option<seq<string>>,
    defaultValue: Option<Value>)

  /** A catalogue is an object literal: its entries in declaration order. */
  datatype Entry = Entry(key: string, schema: FieldSchema)
  type Catalogue = seq<Entry>

  /** A string field with length bounds. */
  function TextField(title: string, description: string, minLength: int, maxLength: int): FieldSchema {
    FieldSchema("string", title, description, Some(minLength), Some(maxLength), None, None, None, None, None, None)
  }

  /** A string field with a format tag. */
  function FormatField(title: string, description: string, format: string): FieldSchema {
    FieldSchema("string", title, description, None, None, None, None, Some(format), None, None, None)
  }

  /** A numeric field with bounds and an optional default. */
  function NumberField(kind: string, title: string, description: string, minimum: int, maximum: int, defaultValue: Option<Value>): FieldSchema {
    FieldSchema(kind, title, description, None, None, Some(minimum), Some(maximum), None, None, None, defaultValue)
  }

  /** A boolean field with a default. */
  function FlagField(title: string, description: string, defaultValue: bool): FieldSchema {
    FieldSchema("boolean", title, description, None, None, None, None, None, None, None, Some(Bool(defaultValue)))
  }

  /** A string field whose `enum` and `enumNames` are the keys and labels of
      one configuration map. */
  function EnumField(title: string, description: string, choices: Config.Choices): (f: FieldSchema)
    ensures f.enumKeys == Some(Config.Keys(choices)) && f.enumNames == Some(Config.Labels(choices))
    ensures |f.enumKeys.value| == |f.enumNames.value| == |choices|
    ensures forall i :: 0 <= i < |choices| ==> (f.enumKeys.value[i], f.enumNames.value[i]) == choices[i]
  {
    FieldSchema("string", title, description, None, None, None, None, None, Some(Config.Keys(choices)), Some(Config.Labels(choices)), None)
  }

  /** The user catalogue, parameterised by the role map it takes its enum
      from. */
  function UserCatalogue(roles: Config.Choices): Catalogue {
    [ Entry("name", TextField("Full Name", "Your full name", 2, 100)),
      Entry("email", TextField("Email Address", "Your email address (e.g., john.doe@example.com)", 5, 100)),
      Entry("age", NumberField("number", "Age", "Your age in years", 13, 120, None)),
      Entry("role", EnumField("Role", "Your role in the organization", roles)) ]
  }

  /** `USER_FIELD_SCHEMAS`. */
  const USER_FIELD_SCHEMAS: Catalogue := UserCatalogue(Config.ROLES)

  /** `JOB_FIELD_SCHEMAS`. */
  const JOB_FIELD_SCHEMAS: Catalogue := [
    Entry("jobTitle", TextField("Job Title", "The job title or position name", 2, 100)),
    Entry("description", TextField("Job Description", "Detailed description of the job responsibilities", 10, 1000)),
    Entry("company_email", FormatField("Company Email", "Contact email for the company", "email")),
    Entry("company_website", FormatField("Company Website", "Company website URL", "uri")),
    Entry("salary", NumberField("number", "Salary", "Annual salary in USD", 0, 1000000, None)),
    Entry("experience_years", NumberField("integer", "Required Experience", "Minimum years of experience required (optional)", 0, 50, Some(Num(3.0)))),
    Entry("is_remote", FlagField("Remote Work", "Is this a remote position?", false)),
    Entry("is_active", FlagField("Active Posting", "Is this job posting currently active?", true)),
    Entry("start_date", FormatField("Start Date", "Expected start date (YYYY-MM-DD)", "date")),
    Entry("application_deadline", FormatField("Application Deadline", "Application deadline date and time", "date-time")),
    Entry("job_type", EnumField("Job Type", "Type of employment", Config.JOB_TYPES)),
    Entry("priority", EnumField("Priority Level", "Hiring priority for this position", Config.PRIORITIES))
  ]

  /** The keys of a catalogue in declaration order (`Object.keys`). */
  function KeysOf(c: Catalogue): (r: seq<string>)
    ensures |r| == |c|
    ensures forall i :: 0 <= i < |c| ==> r[i] == c[i].key
  {
    seq(|c|, i requires 0 <= i < |c| => c[i].key)
  }

  /** `fieldSchemas[key]`: the descriptor stored under `key`, if any. */
  function Lookup(c: Catalogue, key: string): (r: Option<FieldSchema>)
    ensures r.Some? <==> key in KeysOf(c)
    ensures r.Some? ==> Entry(key, r.value) in c
  {
    if c == [] then None
    else if c[0].key == key then Some(c[0].schema)
    else
      assert KeysOf(c) == [c[0].key] + KeysOf(c[1..]);
      Lookup(c[1..], key)
  }

  /** An entry is what its key looks up when no earlier entry has that key. */
  lemma {:induction false} LookupPrefix(c: Catalogue, i: nat)
    requires i < |c| && forall j :: 0 <= j < i ==> c[j].key != c[i].key
    ensures Lookup(c, c[i].key) == Some(c[i].schema)
  {
    if i > 0 {
      LookupPrefix(c[1..], i - 1);
    }
  }

  /** `{ properties, required }` as `_buildSchema` returns it. */
  datatype SubSchema = SubSchema(properties: map<string, FieldSchema>, required: seq<string>)

  /** The missing fields that the catalogue describes, in the order given,
      repeats included. */
  function KnownFields(c: Catalogue, missingFields: seq<string>): (r: seq<string>)
    ensures forall f :: f in r <==> f in missingFields && f in KeysOf(c)
  {
    Filter(missingFields, Describes(c))
  }

  /** The catalogue membership test as a callback for `Filter`. */
  function Describes(c: Catalogue): string -> bool {
    f => Lookup(c, f).Some?
  }

  /** Each described field among `fields` mapped to its descriptor. */
  function PropertiesFor(c: Catalogue, fields: seq<string>): (m: map<string, FieldSchema>)
    ensures forall f :: f in m <==> f in fields && Lookup(c, f).Some?
    ensures forall f :: f in m ==> Lookup(c, f) == Some(m[f])
  {
    map f | f in fields && Lookup(c, f).Some? :: Lookup(c, f).value
  }

  /** The sub-schema for `missingFields`: each described field mapped to its
      descriptor, and the described fields in order. */
  function SubSchemaFor(c: Catalogue, missingFields: seq<string>): SubSchema {
    SubSchema(PropertiesFor(c, missingFields), KnownFields(c, missingFields))
  }

  /** The properties of a list extended by one field: the loop step. */
  lemma PropertiesPush(c: Catalogue, fields: seq<string>, field: string)
    ensures PropertiesFor(c, fields + [field]) ==
      if Lookup(c, field).Some? then PropertiesFor(c, fields)[field := Lookup(c, field).value]
      else PropertiesFor(c, fields)
  {
  }

  /** `_buildSchema(fieldSchemas, missingFields)`. A field the catalogue does
      not describe is skipped; every other one gets its descriptor, unchanged,
      in `properties` and is appended to `required`. */
  method BuildSchema(c: Catalogue, missingFields: seq<string>) returns (s: SubSchema)
    ensures forall f :: f in s.properties <==> f in missingFields && Lookup(c, f).Some?
    ensures forall f :: f in s.properties ==> Lookup(c, f) == Some(s.properties[f])
    ensures s.required == KnownFields(c, missingFields)
    ensures s == SubSchemaFor(c, missingFields)
  {
    var properties: map<string, FieldSchema> := map[];
    var required: seq<string> := [];
    for i := 0 to |missingFields|
      invariant properties == PropertiesFor(c, missingFields[..i])
      invariant required == KnownFields(c, missingFields[..i])
    {
      var field := missingFields[i];
      var schema := Lookup(c, field);
      assert missingFields[..i + 1] == missingFields[..i] + [field];
      FilterPush(missingFields[..i], field, Describes(c));
      PropertiesPush(c, missingFields[..i], field);
      if schema.Some? {
        properties := properties[field := schema.value];
        required := required + [field];
      }
    }
    assert missingFields[..|missingFields|] == missingFields;
    s := SubSchema(properties, required);
  }

  /** `buildUserSchema(missingFields)`. */
  method BuildUserSchema(missingFields: seq<string>) returns (s: SubSchema)
    ensures forall f :: f in s.properties <==> f in missingFields && Lookup(USER_FIELD_SCHEMAS, f).Some?
    ensures forall f :: f in s.properties ==> Lookup(USER_FIELD_SCHEMAS, f) == Some(s.properties[f])
    ensures s.required == KnownFields(USER_FIELD_SCHEMAS, missingFields)
    ensures s == SubSchemaFor(USER_FIELD_SCHEMAS, missingFields)
  {
    s := BuildSchema(USER_FIELD_SCHEMAS, missingFields);
  }

  /** `buildJobSchema(missingFields)`. */
  method BuildJobSchema(missingFields: seq<string>) returns (s: SubSchema)
    ensures forall f :: f in s.properties <==> f in missingFields && Lookup(JOB_FIELD_SCHEMAS, f).Some?
    ensures forall f :: f in s.properties ==> Lookup(JOB_FIELD_SCHEMAS, f) == Some(s.properties[f])
    ensures s.required == KnownFields(JOB_FIELD_SCHEMAS, missingFields)
    ensures s == SubSchemaFor(JOB_FIELD_SCHEMAS, missingFields)
  {
    s := BuildSchema(JOB_FIELD_SCHEMAS, missingFields);
  }

  /** In a built sub-schema, `required` names exactly the keys of
      `properties`, and each property is the catalogue's descriptor. */
  lemma SubSchemaShape(c: Catalogue, missingFields: seq<string>)
    ensures var s := SubSchemaFor(c, missingFields);
      && (forall f :: f in s.required <==> f in s.properties)
      && (forall f :: f in s.properties <==> f in missingFields && f in KeysOf(c))
      && (forall f :: f in s.properties ==> Entry(f, s.properties[f]) in c)
  {
  }

  /** `required` keeps the order of `missingFields`. */
  lemma RequiredInMissingOrder(c: Catalogue, missingFields: seq<string>)
    ensures IsSubsequence(SubSchemaFor(c, missingFields).required, missingFields)
  {
    FilterIsSubsequence(missingFields, Describes(c));
  }

  /** When every missing field is described, the sub-schema requires them
      all, in the order given. */
  lemma {:induction false} AllKnownAllRequired(c: Catalogue, missingFields: seq<string>)
    requires forall f :: f in missingFields ==> f in KeysOf(c)
    ensures SubSchemaFor(c, missingFields).required == missingFields
    ensures SubSchemaFor(c, missingFields).properties.Keys == set f | f in missingFields
  {
    FilterAll(missingFields, Describes(c));
  }

  /** The enumerated user field takes `enum` and `enumNames` from the role
      map, as parallel lists. */
  lemma RoleEnumFromConfig()
    ensures Lookup(USER_FIELD_SCHEMAS, "role") == Some(EnumField("Role", "Your role in the organization", Config.ROLES))
    ensures Config.Keys(Config.ROLES) == ["developer", "designer", "manager"]
  {
    LookupPrefix(USER_FIELD_SCHEMAS, 3);
  }

  /** The job-type field takes `enum` and `enumNames` from the job-type map. */
  lemma JobTypeEnumFromConfig()
    ensures Lookup(JOB_FIELD_SCHEMAS, "job_type") == Some(EnumField("Job Type", "Type of employment", Config.JOB_TYPES))
    ensures Config.Keys(Config.JOB_TYPES) == ["fulltime", "parttime", "contract"]
  {
    assert forall j :: 0 <= j < 10 ==> JOB_FIELD_SCHEMAS[j].key != "job_type";
    LookupPrefix(JOB_FIELD_SCHEMAS, 10);
  }

  /** The priority field takes `enum` and `enumNames` from the priority map. */
  lemma PriorityEnumFromConfig()
    ensures Lookup(JOB_FIELD_SCHEMAS, "priority") == Some(EnumField("Priority Level", "Hiring priority for this position", Config.PRIORITIES))
    ensures Config.Keys(Config.PRIORITIES) == ["low", "medium", "high"]
  {
    assert forall j :: 0 <= j < 11 ==> JOB_FIELD_SCHEMAS[j].key != "priority";
    LookupPrefix(JOB_FIELD_SCHEMAS, 11);
  }

  /** One declared tool parameter. `optional` is None where the source's
      object has no `optional` key. */
  datatype ToolParam = ToolParam(kind: string, description: string, optional: Option<bool>)

  /** The loop shared by `getUserToolParams` and `getJobToolParams`: one
      parameter per catalogue entry, with the entry's type and description. */
  method ToolParamsOf(c: Catalogue, optional: Option<bool>) returns (params: map<string, ToolParam>)
    requires Distinct(KeysOf(c))
    ensures forall k :: k in params <==> k in KeysOf(c)
    ensures forall i :: 0 <= i < |c| ==> params[c[i].key] == ToolParam(c[i].schema.kind, c[i].schema.description, optional)
  {
    params := map[];
    for i := 0 to |c|
      invariant forall k :: k in params <==> k in KeysOf(c)[..i]
      invariant forall j :: 0 <= j < i ==> params[c[j].key] == ToolParam(c[j].schema.kind, c[j].schema.description, optional)
    {
      assert KeysOf(c)[..i + 1] == KeysOf(c)[..i] + [c[i].key];
      forall j | 0 <= j < i ensures c[j].key != c[i].key {
        assert KeysOf(c)[j] != KeysOf(c)[i];
      }
      params := params[c[i].key := ToolParam(c[i].schema.kind, c[i].schema.description, optional)];
    }
    assert KeysOf(c)[..|c|] == KeysOf(c);
  }

  /** The user fields' keys, in declaration order. */
  const USER_KEYS: seq<string> := ["name", "email", "age", "role"]

  /** The job fields' keys, in declaration order. */
  const JOB_KEYS: seq<string> := ["jobTitle", "description", "company_email", "company_website",
    "salary", "experience_years", "is_remote", "is_active", "start_date", "application_deadline",
    "job_type", "priority"]

  /** The user catalogue declares the user keys, in order. */
  lemma UserKeys()
    ensures KeysOf(USER_FIELD_SCHEMAS) == USER_KEYS
  {
  }

  /** The job catalogue declares the job keys, in order. */
  lemma JobKeys()
    ensures KeysOf(JOB_FIELD_SCHEMAS) == JOB_KEYS
  {
  }

  /** Neither key list repeats a key. */
  lemma KeysDistinct()
    ensures Distinct(USER_KEYS) && Distinct(JOB_KEYS)
  {
  }

  /** No catalogue repeats a key. */
  lemma CataloguesDistinct()
    ensures Distinct(KeysOf(USER_FIELD_SCHEMAS)) && Distinct(KeysOf(JOB_FIELD_SCHEMAS))
  {
    UserKeys();
    JobKeys();
    KeysDistinct();
  }

  /** `getUserToolParams()`: exactly the user fields, each marked optional. */
  method GetUserToolParams() returns (params: map<string, ToolParam>)
    ensures forall k :: k in params <==> k in USER_KEYS
    ensures forall i :: 0 <= i < |USER_FIELD_SCHEMAS| ==>
      params[USER_FIELD_SCHEMAS[i].key] == ToolParam(USER_FIELD_SCHEMAS[i].schema.kind, USER_FIELD_SCHEMAS[i].schema.description, Some(true))
  {
    CataloguesDistinct();
    UserKeys();
    params := ToolParamsOf(USER_FIELD_SCHEMAS, Some(true));
  }

  /** `getJobToolParams()`: exactly the job fields, with no `optional` flag. */
  method GetJobToolParams() returns (params: map<string, ToolParam>)
    ensures forall k :: k in params <==> k in JOB_KEYS
    ensures forall i :: 0 <= i < |JOB_FIELD_SCHEMAS| ==>
      params[JOB_FIELD_SCHEMAS[i].key] == ToolParam(JOB_FIELD_SCHEMAS[i].schema.kind, JOB_FIELD_SCHEMAS[i].schema.description, None)
  {
    CataloguesDistinct();
    JobKeys();
    params := ToolParamsOf(JOB_FIELD_SCHEMAS, None);
  }
}
