/** The management state of a report: its file form and back. */
module ReportState {
  import opened TextLines

  datatype Option<+T> = None | Some(value: T)

  datatype Json = Null | Bool(b: bool) | Number(n: real) | Str(s: string) | Arr(items: seq<Json>) | Obj(fields: map<string, Json>)

  datatype Management = Management(sourceRefs: seq<string>, datasetIds: seq<string>, jobRefs: seq<string>, archived: bool)

  const EMPTY := Management([], [], [], false)

  newtype Byte = b: int | 0 <= b < 256
  type Bytes = seq<Byte>

  const NEWLINE: Bytes := [10]

  /** Which source references are acceptable, the UTF-8 form of JSON text and how it is read, and the size
      limit in bytes. */
  datatype Files = Files(source: string -> bool, encode: Json -> Bytes, decode: Bytes -> Option<Json>, limit: nat)

  ghost predicate Lawful(f: Files) { forall j :: f.decode(f.encode(j) + NEWLINE) == Some(j) }

  predicate Unique(items: seq<string>) { forall i, j | 0 <= i < j < |items| :: items[i] != items[j] }

  /** A text that is not only spaces. */
  predicate Filled(s: string) { exists i | 0 <= i < |s| :: !IsSpace(s[i]) }

  predicate ValidState(s: Management, f: Files) {
    && (forall i | 0 <= i < |s.sourceRefs| :: f.source(s.sourceRefs[i])) && Unique(s.sourceRefs)
    && (forall i | 0 <= i < |s.datasetIds| :: Filled(s.datasetIds[i])) && Unique(s.datasetIds)
    && (forall i | 0 <= i < |s.jobRefs| :: Filled(s.jobRefs[i])) && Unique(s.jobRefs)
  }

  /* ------------------------------------------------------------------ the file form */

  function Strings(items: seq<string>): (r: seq<Json>)
    ensures |r| == |items| && forall i | 0 <= i < |items| :: r[i] == Str(items[i])
  {
    seq(|items|, i requires 0 <= i < |items| => Str(items[i]))
  }

  /** Empty optional lists and a false flag are left out. */
  function Payload(s: Management): map<string, Json> {
    map["source_refs" := Arr(Strings(s.sourceRefs))]
    + (if s.datasetIds == [] then map[] else map["dataset_ids" := Arr(Strings(s.datasetIds))])
    + (if s.jobRefs == [] then map[] else map["job_refs" := Arr(Strings(s.jobRefs))])
    + (if s.archived then map["archived" := Bool(true)] else map[])
  }

  predicate AllStrings(j: Json) { j.Arr? && forall i | 0 <= i < |j.items| :: j.items[i].Str? }

  function Texts(j: Json): (r: seq<string>)
    requires AllStrings(j)
    ensures |r| == |j.items| && forall i | 0 <= i < |r| :: j.items[i] == Str(r[i])
  {
    seq(|j.items|, i requires 0 <= i < |j.items| => j.items[i].s)
  }

  function Field(payload: map<string, Json>, key: string): Json { if key in payload then payload[key] else Arr([]) }

  /** What a payload stands for; `None` for anything that is not a state. */
  function StateOf(payload: Json, f: Files): Option<Management> {
    if !payload.Obj? || "source_refs" !in payload.fields then None
    else if exists k | k in payload.fields :: k !in ["source_refs", "dataset_ids", "job_refs", "archived"] then None
    else
      var sources, datasets, jobs := payload.fields["source_refs"], Field(payload.fields, "dataset_ids"), Field(payload.fields, "job_refs");
      var archived := if "archived" in payload.fields then payload.fields["archived"] else Bool(false);
      if !AllStrings(sources) || !AllStrings(datasets) || !AllStrings(jobs) || !archived.Bool? then None
      else
        var state := Management(Texts(sources), Texts(datasets), Texts(jobs), archived.b);
        if ValidState(state, f) then Some(state) else None
  }

  /** The content of the state file, or `None` when the state is refused or too large. */
  function WriteState(s: Management, f: Files): Option<Bytes> {
    if !ValidState(s, f) || |f.encode(Obj(Payload(s)))| + 1 > f.limit then None else Some(f.encode(Obj(Payload(s))) + NEWLINE)
  }

  function ReadState(content: Bytes, f: Files): Option<Management> {
    if |content| > f.limit || f.decode(content).None? then None else StateOf(f.decode(content).value, f)
  }

  lemma TextsOfStrings(items: seq<string>)
    ensures AllStrings(Arr(Strings(items))) && Texts(Arr(Strings(items))) == items
  {
  }

  lemma PayloadStandsFor(s: Management, f: Files)
    requires ValidState(s, f)
    ensures StateOf(Obj(Payload(s)), f) == Some(s)
  {
    TextsOfStrings(s.sourceRefs);
    TextsOfStrings(s.datasetIds);
    TextsOfStrings(s.jobRefs);
    TextsOfStrings([]);
    assert Strings([]) == [];
    var fields := Payload(s);
    assert Field(fields, "dataset_ids") == Arr(Strings(s.datasetIds));
    assert Field(fields, "job_refs") == Arr(Strings(s.jobRefs));
  }

  /** Every written state reads back equal. */
  lemma WrittenReadsBack(s: Management, f: Files)
    requires Lawful(f)
    ensures WriteState(s, f).Some? ==> ReadState(WriteState(s, f).value, f) == Some(s)
    ensures WriteState(s, f).None? <==> !ValidState(s, f) || |f.encode(Obj(Payload(s)))| >= f.limit
  {
    if WriteState(s, f).Some? {
      PayloadStandsFor(s, f);
    }
  }

  /* ------------------------------------------------------------------ what the file says */

  /** A list of texts under a key; one that may be missing is empty then. */
  predicate Lists(payload: map<string, Json>, key: string, items: seq<string>) {
    if key in payload then payload[key].Arr? && |payload[key].items| == |items| && forall i | 0 <= i < |items| :: payload[key].items[i] == Str(items[i])
    else items == []
  }

  predicate Says(payload: Json, s: Management) {
    && payload.Obj? && payload.fields.Keys <= {"source_refs", "dataset_ids", "job_refs", "archived"} &&
          "source_refs" in payload.fields
    && Lists(payload.fields, "source_refs", s.sourceRefs)
    && Lists(payload.fields, "dataset_ids", s.datasetIds)
    && Lists(payload.fields, "job_refs", s.jobRefs)
    && (if "archived" in payload.fields then payload.fields["archived"] == Bool(s.archived) else !s.archived)
  }

  lemma ListsTexts(payload: map<string, Json>, key: string, items: seq<string>)
    ensures Lists(payload, key, items) <==> AllStrings(Field(payload, key)) && Texts(Field(payload, key)) == items
  {
    if AllStrings(Field(payload, key)) {
      var texts := Texts(Field(payload, key));
      if Lists(payload, key, items) {
        assert |texts| == |items| && forall i | 0 <= i < |items| :: texts[i] == items[i];
      }
    }
  }

  /** A payload stands for a state if and only if it says so under the four known keys, and the state is valid. */
  lemma StandsForExactly(payload: Json, s: Management, f: Files)
    ensures StateOf(payload, f) == Some(s) <==> Says(payload, s) && ValidState(s, f)
  {
    if payload.Obj? {
      ListsTexts(payload.fields, "source_refs", s.sourceRefs);
      ListsTexts(payload.fields, "dataset_ids", s.datasetIds);
      ListsTexts(payload.fields, "job_refs", s.jobRefs);
      assert payload.fields.Keys <= {"source_refs", "dataset_ids", "job_refs", "archived"} <==>
        !exists k | k in payload.fields :: k !in ["source_refs", "dataset_ids", "job_refs", "archived"];
    }
  }

  /** What is written says the state, and leaves out what is empty or false. */
  lemma PayloadSays(s: Management)
    ensures Says(Obj(Payload(s)), s)
    ensures "dataset_ids" in Payload(s) <==> s.datasetIds != []
    ensures "job_refs" in Payload(s) <==> s.jobRefs != []
    ensures "archived" in Payload(s) <==> s.archived
  {
  }

  /** Reading fails on a file over the limit, on text that is no JSON, and on JSON that is no state. */
  lemma ReadExactly(content: Bytes, s: Management, f: Files)
    ensures ReadState(content, f) == Some(s) <==>
      |content| <= f.limit && f.decode(content).Some? && Says(f.decode(content).value, s) && ValidState(s, f)
  {
    if f.decode(content).Some? {
      StandsForExactly(f.decode(content).value, s, f);
    }
  }
}
