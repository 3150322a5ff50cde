/** Standard jobs: their validation and normal form, and the choice of an adapter for one. */
module Jobs {

  datatype Option<+T> = None | Some(value: T)

  // ----- text -----

  predicate IsSpace(c: char) {
    var n := c as int;
    9 <= n <= 13 || 28 <= n <= 32
  }

  function StripLeft(s: string): string {
    if s != [] && IsSpace(s[0]) then StripLeft(s[1..]) else s
  }

  function StripRight(s: string): string {
    if s != [] && IsSpace(s[|s| - 1]) then StripRight(s[..|s| - 1]) else s
  }

  function Strip(s: string): string {
    StripRight(StripLeft(s))
  }

  predicate Blank(s: string) {
    Strip(s) == []
  }

  /** No space at either end. */
  predicate Trimmed(s: string) {
    s == [] || (!IsSpace(s[0]) && !IsSpace(s[|s| - 1]))
  }

  function UpperChar(c: char): char {
    if 'a' <= c <= 'z' then c - 'a' + 'A' else c
  }

  function Upper(s: string): (u: string)
    ensures |u| == |s|
  {
    seq(|s|, i requires 0 <= i < |s| => UpperChar(s[i]))
  }

  // ----- lists -----

  function StripAll(items: seq<string>): (r: seq<string>)
    ensures |r| == |items|
  {
    seq(|items|, i requires 0 <= i < |items| => Strip(items[i]))
  }

  /** The items without later repetitions, in the order of their first occurrence. */
  function Distinct(items: seq<string>): seq<string> {
    if items == [] then []
    else
      var front := Distinct(items[..|items| - 1]);
      var last := items[|items| - 1];
      if last in front then front else front + [last]
  }

  // ----- jobs -----

  /** A field of the job document: absent, a string, or anything else. */
  datatype Field = Missing | Text(text: string) | OtherValue

  datatype ListField = NoList | Items(items: seq<Field>) | NotAList

  datatype RawJob = RawJob(
    hasUnknownFields: bool,
    schemaVersion: Field,
    id: Field,
    idempotencyKey: Field,
    jobType: Field,
    requiredCapabilities: ListField,
    parametersIsObject: bool,
    safetyPolicyIsObject: bool)

  datatype Job = Job(id: string, key: string, jobType: string, required: seq<string>)

  const SCHEMA := "roc.job.v1"

  const MAX_KEY := 256

  predicate NonBlank(f: Field) {
    f.Text? && !Blank(f.text)
  }

  function KeyField(raw: RawJob): Field {
    if raw.idempotencyKey.Missing? then raw.id else raw.idempotencyKey
  }

  predicate CapabilitiesOk(list: ListField) {
    match list
    case NoList => true
    case Items(items) => forall i | 0 <= i < |items| :: NonBlank(items[i])
    case NotAList => false
  }

  predicate Acceptable(raw: RawJob) {
    && !raw.hasUnknownFields
    && raw.schemaVersion == Text(SCHEMA)
    && NonBlank(raw.id) && NonBlank(raw.jobType)
    && NonBlank(KeyField(raw)) && |KeyField(raw).text| <= MAX_KEY
    && CapabilitiesOk(raw.requiredCapabilities)
    && raw.parametersIsObject && raw.safetyPolicyIsObject
  }

  function Texts(items: seq<Field>): (r: seq<string>)
    requires forall i | 0 <= i < |items| :: items[i].Text?
    ensures |r| == |items|
  {
    seq(|items|, i requires 0 <= i < |items| => items[i].text)
  }

  function Capabilities(list: ListField): seq<string>
    requires CapabilitiesOk(list)
  {
    if list.NoList? then [] else Distinct(StripAll(Texts(list.items)))
  }

  function Normalized(raw: RawJob): Job
    requires Acceptable(raw)
  {
    Job(Strip(raw.id.text), Strip(KeyField(raw).text), Upper(Strip(raw.jobType.text)),
        Capabilities(raw.requiredCapabilities))
  }

  /** Checks a job document field by field, in order, and brings it to its normal form. */
  function Validate(raw: RawJob): Option<Job> {
    if Acceptable(raw) then Some(Normalized(raw)) else None
  }

  /** A normalized job, as the document that would state it. */
  function Document(job: Job): RawJob {
    RawJob(false, Text(SCHEMA), Text(job.id), Text(job.key), Text(job.jobType),
           Items(seq(|job.required|, i requires 0 <= i < |job.required| => Text(job.required[i]))), true, true)
  }

  lemma {:induction false} StripLeftTrims(s: string)
    ensures var t := StripLeft(s); t == [] || !IsSpace(t[0])
    ensures |StripLeft(s)| <= |s|
    ensures s != [] && !IsSpace(s[|s| - 1]) ==> StripLeft(s) != [] && StripLeft(s)[|StripLeft(s)| - 1] == s[|s| - 1]
  {
    if s != [] && IsSpace(s[0]) {
      StripLeftTrims(s[1..]);
    }
  }

  lemma {:induction false} StripRightTrims(s: string)
    requires s == [] || !IsSpace(s[0])
    ensures Trimmed(StripRight(s)) && |StripRight(s)| <= |s|
  {
    if s != [] && IsSpace(s[|s| - 1]) {
      StripRightTrims(s[..|s| - 1]);
    }
  }

  /** Stripping leaves no space at the ends, and strips nothing when there is none. */
  lemma StripTrims(s: string)
    ensures Trimmed(Strip(s)) && |Strip(s)| <= |s|
    ensures Trimmed(s) ==> Strip(s) == s
  {
    StripLeftTrims(s);
    StripRightTrims(StripLeft(s));
  }

  lemma UpperKeeps(s: string)
    ensures Trimmed(s) ==> Trimmed(Upper(s))
    ensures Upper(Upper(s)) == Upper(s)
    ensures Upper(s) == [] <==> s == []
  {
  }

  predicate NoRepeats(items: seq<string>) {
    forall i, j | 0 <= i < j < |items| :: items[i] != items[j]
  }

  lemma {:induction false} DistinctIsDistinct(items: seq<string>)
    ensures NoRepeats(Distinct(items))
    ensures forall x :: x in Distinct(items) <==> x in items
    ensures NoRepeats(items) ==> Distinct(items) == items
  {
    if items != [] {
      var front := items[..|items| - 1];
      DistinctIsDistinct(front);
      assert items == front + [items[|items| - 1]];
    }
  }

  /** What validation leaves in a job: trimmed, non-empty texts and distinct capabilities. */
  ghost predicate Normal(job: Job) {
    && Trimmed(job.id) && job.id != []
    && Trimmed(job.key) && job.key != [] && |job.key| <= MAX_KEY
    && Trimmed(job.jobType) && job.jobType != [] && Upper(job.jobType) == job.jobType
    && (forall i | 0 <= i < |job.required| :: Trimmed(job.required[i]) && job.required[i] != [])
    && NoRepeats(job.required)
  }

  lemma NormalizedIsNormal(raw: RawJob)
    requires Acceptable(raw)
    ensures Normal(Normalized(raw))
  {
    var job := Normalized(raw);
    StripTrims(raw.id.text);
    StripTrims(KeyField(raw).text);
    StripTrims(raw.jobType.text);
    UpperKeeps(Strip(raw.jobType.text));
    if raw.requiredCapabilities.Items? {
      var texts := Texts(raw.requiredCapabilities.items);
      DistinctIsDistinct(StripAll(texts));
      forall i | 0 <= i < |job.required|
        ensures Trimmed(job.required[i]) && job.required[i] != []
      {
        assert job.required[i] in StripAll(texts);
        var j :| 0 <= j < |texts| && StripAll(texts)[j] == job.required[i];
        StripTrims(texts[j]);
        assert NonBlank(raw.requiredCapabilities.items[j]);
      }
    }
  }

  lemma NormalIsAccepted(job: Job)
    requires Normal(job)
    ensures Validate(Document(job)) == Some(job)
  {
    var raw := Document(job);
    StripTrims(job.id);
    StripTrims(job.key);
    StripTrims(job.jobType);
    forall i | 0 <= i < |job.required|
      ensures Strip(job.required[i]) == job.required[i] && NonBlank(raw.requiredCapabilities.items[i])
    {
      assert Trimmed(job.required[i]);
      StripTrims(job.required[i]);
    }
    assert StripAll(Texts(raw.requiredCapabilities.items)) == job.required;
    DistinctIsDistinct(job.required);
  }

  /**
   Validation reaches a normal form: a job it accepts is normal, the document of a normal job is
   accepted, and validating that document again changes nothing.
   */
  lemma ValidationIsIdempotent(raw: RawJob)
    ensures match Validate(raw)
            case Some(job) => Normal(job) && Validate(Document(job)) == Some(job)
            case None => !Acceptable(raw)
  {
    if Acceptable(raw) {
      NormalizedIsNormal(raw);
      NormalIsAccepted(Normalized(raw));
    }
  }

  // ----- what is accepted, and what becomes of it -----

  /** There is something in this text besides ASCII white space. */
  predicate ShowsSomething(s: string) {
    exists i | 0 <= i < |s| :: !(9 <= s[i] as int <= 13 || 28 <= s[i] as int <= 32)
  }

  predicate Shown(f: Field) {
    f.Text? && ShowsSomething(f.text)
  }

  predicate IsWhite(s: string, from: nat, to: nat)
    requires to <= |s|
  {
    forall i | from <= i < to :: 9 <= s[i] as int <= 13 || 28 <= s[i] as int <= 32
  }

  /** `s[a..b]` is what is left of `s` without the white space around it. */
  predicate Core(s: string, a: nat, b: nat) {
    && a <= b <= |s| && IsWhite(s, 0, a) && IsWhite(s, b, |s|)
    && (a < b ==> !IsWhite(s, a, a + 1) && !IsWhite(s, b - 1, b))
  }

  ghost predicate IsCore(s: string, t: string) {
    exists a: nat, b: nat :: Core(s, a, b) && t == s[a..b]
  }

  lemma {:induction false} StripLeftCuts(s: string) returns (a: nat)
    ensures a <= |s| && StripLeft(s) == s[a..] && IsWhite(s, 0, a) && (a < |s| ==> !IsWhite(s, a, a + 1))
  {
    if s != [] && IsSpace(s[0]) {
      var b := StripLeftCuts(s[1..]);
      a := b + 1;
      forall i | 0 <= i < a
        ensures IsSpace(s[i])
      {
        assert i > 0 ==> s[i] == s[1..][i - 1];
      }
      assert a < |s| ==> s[a] == s[1..][b];
    } else {
      a := 0;
    }
  }

  lemma {:induction false} StripRightCuts(s: string) returns (b: nat)
    ensures b <= |s| && StripRight(s) == s[..b] && IsWhite(s, b, |s|) && (b > 0 ==> !IsWhite(s, b - 1, b))
  {
    if s != [] && IsSpace(s[|s| - 1]) {
      b := StripRightCuts(s[..|s| - 1]);
    } else {
      b := |s|;
    }
  }

  /** Stripping takes the white space around a text and nothing else. */
  lemma StripIsCore(s: string)
    ensures IsCore(s, Strip(s))
    ensures Strip(s) == [] <==> !ShowsSomething(s)
  {
    var a := StripLeftCuts(s);
    var t := StripLeft(s);
    var n := StripRightCuts(t);
    var b := a + n;
    assert Strip(s) == s[a..b];
    assert forall i | b <= i < |s| :: s[i] == t[i - a];
    if n > 0 {
      assert s[b - 1] == t[n - 1];
      assert !IsSpace(s[b - 1]);
    } else {
      assert IsWhite(s, 0, a) && IsWhite(s, a, |s|);
    }
    CoreOfStripped(s, t, a, b);
    assert Core(s, a, b);
  }

  // The first character left by stripping is the first one left on the left side.
  lemma CoreOfStripped(s: string, t: string, a: nat, b: nat)
    requires a <= b <= |s| && t == s[a..] && (a < |s| ==> !IsWhite(s, a, a + 1))
    ensures a < b ==> !IsWhite(s, a, a + 1)
  {
  }

  /** These are the places where the items of `r` stand in `items` for the first time, in order. */
  predicate FirstPlaces(items: seq<string>, r: seq<string>, places: seq<nat>) {
    && |places| == |r|
    && (forall i | 0 <= i < |r| ::
          places[i] < |items| && items[places[i]] == r[i] && r[i] !in items[..places[i]])
    && (forall i, j | 0 <= i < j < |r| :: places[i] < places[j])
  }

  lemma FirstPlacesKept(front: seq<string>, last: string, r: seq<string>, places: seq<nat>)
    requires FirstPlaces(front, r, places)
    ensures FirstPlaces(front + [last], r, places)
    ensures last !in front ==> FirstPlaces(front + [last], r + [last], places + [|front|])
  {
    var items := front + [last];
    forall i | 0 <= i < |r|
      ensures items[places[i]] == r[i] && r[i] !in items[..places[i]]
    {
      assert items[..places[i]] == front[..places[i]];
    }
    assert items[..|front|] == front;
  }

  lemma InDistinct(items: seq<string>, x: string)
    ensures x in Distinct(items) <==> x in items
  {
    DistinctIsDistinct(items);
  }

  lemma {:induction false} DistinctPlaces(items: seq<string>) returns (places: seq<nat>)
    ensures FirstPlaces(items, Distinct(items), places)
  {
    places := [];
    if items != [] {
      var front, last := items[..|items| - 1], items[|items| - 1];
      places := DistinctPlaces(front);
      FirstPlacesKept(front, last, Distinct(front), places);
      InDistinct(front, last);
      assert front + [last] == items;
      hide FirstPlaces;
      if last !in Distinct(front) {
        places := places + [|front|];
      }
    }
  }

  predicate UpperOf(t: string, u: string) {
    |u| == |t| && forall i | 0 <= i < |t| :: u[i] == if 'a' <= t[i] <= 'z' then (t[i] as int - 32) as char else t[i]
  }

  /** The required capabilities: the texts listed without the white space around them, once each, in order. */
  ghost predicate RequiredOf(list: ListField, required: seq<string>) {
    if list.NoList? then required == []
    else
      list.Items? && exists texts: seq<string>, places: seq<nat> ::
        && |texts| == |list.items|
        && (forall i | 0 <= i < |texts| :: list.items[i].Text? && IsCore(list.items[i].text, texts[i]))
        && FirstPlaces(texts, required, places) && (forall x | x in texts :: x in required)
  }

  lemma CapabilitiesAreRequired(list: ListField)
    requires CapabilitiesOk(list)
    ensures RequiredOf(list, Capabilities(list))
  {
    if list.Items? {
      var texts := StripAll(Texts(list.items));
      forall i | 0 <= i < |texts|
        ensures list.items[i].Text? && IsCore(list.items[i].text, texts[i])
      {
        assert NonBlank(list.items[i]);
        StripIsCore(list.items[i].text);
      }
      var places := DistinctPlaces(texts);
      DistinctIsDistinct(texts);
    }
  }

  /**
   Validation, exactly: which documents are accepted, and what becomes of their texts. The length
   of the key is checked before it is stripped.
   */
  lemma ValidateExactly(raw: RawJob)
    ensures var key := if raw.idempotencyKey.Missing? then raw.id else raw.idempotencyKey;
            Validate(raw).Some?
            <==> && !raw.hasUnknownFields && raw.schemaVersion == Text("roc.job.v1")
                 && Shown(raw.id) && Shown(raw.jobType) && Shown(key) && |key.text| <= 256
                 && !raw.requiredCapabilities.NotAList?
                 && (raw.requiredCapabilities.Items? ==>
                       forall i | 0 <= i < |raw.requiredCapabilities.items| :: Shown(raw.requiredCapabilities.items[i]))
                 && raw.parametersIsObject && raw.safetyPolicyIsObject
    ensures Validate(raw).Some? ==>
              var key, job := if raw.idempotencyKey.Missing? then raw.id else raw.idempotencyKey, Validate(raw).value;
              && IsCore(raw.id.text, job.id) && IsCore(key.text, job.key)
              && (exists t :: IsCore(raw.jobType.text, t) && UpperOf(t, job.jobType))
              && RequiredOf(raw.requiredCapabilities, job.required)
  {
    BlankExactly(raw.id);
    BlankExactly(raw.jobType);
    BlankExactly(raw.idempotencyKey);
    if raw.requiredCapabilities.Items? {
      forall i | 0 <= i < |raw.requiredCapabilities.items|
        ensures NonBlank(raw.requiredCapabilities.items[i]) <==> Shown(raw.requiredCapabilities.items[i])
      {
        BlankExactly(raw.requiredCapabilities.items[i]);
      }
    }
    if Acceptable(raw) {
      CapabilitiesAreRequired(raw.requiredCapabilities);
      StripIsCore(raw.jobType.text);
      assert UpperOf(Strip(raw.jobType.text), Upper(Strip(raw.jobType.text)));
    }
  }

  lemma BlankExactly(f: Field)
    ensures NonBlank(f) <==> Shown(f)
    ensures f.Text? ==> IsCore(f.text, Strip(f.text))
  {
    if f.Text? {
      StripIsCore(f.text);
    }
  }

  // ----- adapters -----

  datatype Manifest = Manifest(id: string, capabilities: set<string>, jobTypes: set<string>)

  predicate CanRun(m: Manifest, job: Job) {
    job.jobType in m.jobTypes && forall c | c in job.required :: c in m.capabilities
  }

  const AUTO := "auto"

  /** Whether the caller's choice of adapter allows this one. */
  predicate Candidate(m: Manifest, wanted: string) {
    wanted == AUTO || m.id == wanted
  }

  /** The first candidate, in the order of their identifiers, that can run the job. */
  method SelectAdapter(manifests: seq<Manifest>, job: Job, wanted: string) returns (r: Option<Manifest>)
    ensures r == Selection(manifests, job, wanted)
  {
    r := None;
    for i := 0 to |manifests|
      invariant r == None
      invariant Selection(manifests, job, wanted) == Selection(manifests[i..], job, wanted)
    {
      assert manifests[i..][1..] == manifests[i + 1..];
      if Candidate(manifests[i], wanted) && CanRun(manifests[i], job) {
        return Some(manifests[i]);
      }
    }
  }

  function Selection(manifests: seq<Manifest>, job: Job, wanted: string): Option<Manifest> {
    if manifests == [] then None
    else if Candidate(manifests[0], wanted) && CanRun(manifests[0], job) then Some(manifests[0])
    else Selection(manifests[1..], job, wanted)
  }

  /** The caller names this adapter or leaves the choice open, and it declares the job's type and capabilities. */
  predicate Suits(m: Manifest, job: Job, wanted: string) {
    && (wanted == "auto" || wanted == m.id)
    && job.jobType in m.jobTypes
    && forall i | 0 <= i < |job.required| :: job.required[i] in m.capabilities
  }

  lemma SuitsExactly(m: Manifest, job: Job, wanted: string)
    ensures Suits(m, job, wanted) <==> Candidate(m, wanted) && CanRun(m, job)
  {
    if CanRun(m, job) {
      assert forall i | 0 <= i < |job.required| :: job.required[i] in m.capabilities;
    }
  }

  /** The adapter selected is the first that suits, and one is selected if and only if some adapter does. */
  lemma {:induction false} SelectionIsFirstCapable(manifests: seq<Manifest>, job: Job, wanted: string)
    ensures match Selection(manifests, job, wanted)
            case Some(m) =>
              exists i | 0 <= i < |manifests| ::
                && manifests[i] == m && Suits(m, job, wanted)
                && forall j | 0 <= j < i :: !Suits(manifests[j], job, wanted)
            case None => forall j | 0 <= j < |manifests| :: !Suits(manifests[j], job, wanted)
  {
    hide Suits, Candidate, CanRun;
    if manifests != [] {
      SuitsExactly(manifests[0], job, wanted);
      if !Suits(manifests[0], job, wanted) {
        var rest := manifests[1..];
        SelectionIsFirstCapable(rest, job, wanted);
        assert forall j | 0 < j < |manifests| :: manifests[j] == rest[j - 1];
        if Selection(rest, job, wanted).Some? {
          var i :| 0 <= i < |rest| && rest[i] == Selection(rest, job, wanted).value && Suits(rest[i], job, wanted)
                   && forall j | 0 <= j < i :: !Suits(rest[j], job, wanted);
          assert manifests[i + 1] == rest[i];
        }
      }
    }
  }
}
