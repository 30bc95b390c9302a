/** The labels put on the workflow (`_get_flow_labels`): the flow name, the
    experiment, one label per tag, the owner and the Zodiac labels. Tag labels
    are validated the way Kubernetes validates label values. */
module FlowLabels {
  import opened Results
  import opened Text

  const MaxLabelLength: nat := 63
  const LabelPrefix := "metaflow.org/"
  const ZodiacPrefix := "zodiac.zillowgroup.net/"
  const TagPrefix := "metaflow.org/tag_"

  // ---------------------------------------------------------------------------
  // Tag labels
  // ---------------------------------------------------------------------------

  /** The label of a tag: a `name:value` tag splits at its first colon (the
      value keeps any later colons); any other tag gets the value `"true"`. */
  function TagLabel(tag: string): (r: (string, string))
    ensures StartsWith(r.0, TagPrefix)
    ensures ':' !in tag ==> r == (TagPrefix + tag, "true")
    ensures ':' in tag ==> exists k :: 0 <= k < |tag| && tag[k] == ':' && ':' !in tag[..k] &&
                                       r == (TagPrefix + tag[..k], tag[k + 1..])
  {
    match IndexOf(tag, ':')
    case None => (TagPrefix + tag, "true")
    case Some(k) => (TagPrefix + tag[..k], tag[k + 1..])
  }

  /** A colon-free name joined to any value by a colon gives that name and
      value back. */
  lemma TagLabelOfPair(name: string, value: string)
    requires ':' !in name
    ensures TagLabel(name + ":" + value) == (TagPrefix + name, value)
  {
    var tag := name + ":" + value;
    assert tag[|name|] == ':' && tag[..|name|] == name && tag[|name| + 1..] == value;
    IndexOfFirst(tag, ':', |name|);
  }

  /** The characters allowed inside a label value. */
  predicate ValueChar(c: char) {
    IsAlnum(c) || c == '-' || c == '_' || c == '.'
  }

  /** A valid label value: empty, or alphanumeric at both ends with only
      alphanumerics, `-`, `_` and `.` in between. */
  predicate ValidLabelValue(v: string) {
    |v| == 0 ||
    (IsAlnum(v[0]) && IsAlnum(v[|v| - 1]) && forall i :: 0 < i < |v| - 1 ==> ValueChar(v[i]))
  }

  /** Where a scan of a value stands against the pattern
      `(([A-Za-z0-9][-A-Za-z0-9_.]*)?[A-Za-z0-9])?`: nothing read, last read an
      alphanumeric, last read `-`, `_` or `.`, or no match possible. */
  datatype Scan = Empty | AfterAlnum | AfterPunct | Dead

  function Step(s: Scan, c: char): Scan {
    match s
    case Empty => if IsAlnum(c) then AfterAlnum else Dead
    case AfterAlnum | AfterPunct => if IsAlnum(c) then AfterAlnum else if ValueChar(c) then AfterPunct else Dead
    case Dead => Dead
  }

  /** A non-empty prefix the pattern can still extend: it starts with an
      alphanumeric and uses only allowed characters. */
  predicate Viable(w: string) {
    |w| > 0 && IsAlnum(w[0]) && forall j :: 0 <= j < |w| ==> ValueChar(w[j])
  }

  predicate Describes(s: Scan, w: string) {
    match s
    case Empty => |w| == 0
    case AfterAlnum => Viable(w) && IsAlnum(w[|w| - 1])
    case AfterPunct => Viable(w) && !IsAlnum(w[|w| - 1])
    case Dead => |w| > 0 && !Viable(w)
  }

  /** `re.fullmatch` of the label-value pattern, as the automaton it
      compiles to: one step per character, accepting when nothing or an
      alphanumeric was read last. */
  method FullMatch(v: string) returns (b: bool)
    ensures b <==> ValidLabelValue(v)
  {
    var s := Empty;
    var i := 0;
    while i < |v|
      invariant i <= |v| && Describes(s, v[..i])
    {
      assert v[..i + 1] == v[..i] + [v[i]];
      s := Step(s, v[i]);
      i := i + 1;
    }
    assert v[..i] == v;
    b := s.Empty? || s.AfterAlnum?;
  }

  /** The label a tag contributes, or the error its validation raises: the
      name's length is checked first, then the value's length, then its form. */
  function CheckedTagLabel(tag: string): (r: Result<(string, string)>)
    ensures r.Ok? <==> |TagLabel(tag).0| <= MaxLabelLength && |TagLabel(tag).1| <= MaxLabelLength && ValidLabelValue(TagLabel(tag).1)
    ensures r.Ok? ==> r.value == TagLabel(tag)
    ensures |TagLabel(tag).0| > MaxLabelLength ==> r == Err(LabelNameTooLong(TagLabel(tag).0))
  {
    var (name, value) := TagLabel(tag);
    if |name| > MaxLabelLength then Err(LabelNameTooLong(name))
    else if |value| > MaxLabelLength then Err(LabelValueTooLong(value))
    else if !ValidLabelValue(value) then Err(LabelValueMalformed(value))
    else Ok((name, value))
  }

  /** The labels of `tags` added to `acc` in order, a later tag overwriting
      an earlier one with the same name; the first invalid tag stops it. */
  function AddTagLabels(tags: seq<string>, acc: map<string, string>): (r: Result<map<string, string>>)
    ensures r.Ok? <==> forall i :: 0 <= i < |tags| ==> CheckedTagLabel(tags[i]).Ok?
    ensures r.Err? ==> exists i :: 0 <= i < |tags| && CheckedTagLabel(tags[i]) == Err(r.error) &&
                                   forall j :: 0 <= j < i ==> CheckedTagLabel(tags[j]).Ok?
    decreases |tags|
  {
    if |tags| == 0 then Ok(acc)
    else
      var entry :- CheckedTagLabel(tags[0]);
      var r := AddTagLabels(tags[1..], acc[entry.0 := entry.1]);
      assert forall i :: 1 <= i < |tags| ==> tags[1..][i - 1] == tags[i];
      r
  }

  /** Some tag among `tags` has a label named `k`. */
  predicate Tagged(tags: seq<string>, k: string) {
    exists i :: 0 <= i < |tags| && TagLabel(tags[i]).0 == k
  }

  /** The tag at `i` is the last one whose label is named `k`. */
  predicate LastTagged(tags: seq<string>, i: int, k: string) {
    0 <= i < |tags| && TagLabel(tags[i]).0 == k && forall j :: i < j < |tags| ==> TagLabel(tags[j]).0 != k
  }

  /** The names tagged by a non-empty sequence: its first tag's and the rest's. */
  lemma TaggedCons(tags: seq<string>, k: string)
    requires |tags| > 0
    ensures Tagged(tags, k) <==> k == TagLabel(tags[0]).0 || Tagged(tags[1..], k)
  {
    var rest := tags[1..];
    if Tagged(rest, k) {
      var i :| 0 <= i < |rest| && TagLabel(rest[i]).0 == k;
      assert TagLabel(tags[i + 1]).0 == k;
    }
    if Tagged(tags, k) && k != TagLabel(tags[0]).0 {
      var i :| 0 <= i < |tags| && TagLabel(tags[i]).0 == k;
      assert TagLabel(rest[i - 1]).0 == k;
    }
  }

  /** The last tag with a name is the last one of the rest, or the first tag
      when the rest does not use the name. */
  lemma LastTaggedCons(tags: seq<string>, i: int, k: string)
    requires |tags| > 0 && LastTagged(tags, i, k)
    ensures i > 0 ==> LastTagged(tags[1..], i - 1, k)
    ensures i == 0 ==> !Tagged(tags[1..], k)
  {
    var rest := tags[1..];
    forall j | i - 1 < j < |rest| && 0 <= j
      ensures TagLabel(rest[j]).0 != k
    {
      assert rest[j] == tags[j + 1];
    }
  }

  /** Adding tag labels keys exactly the tags' names on top of `acc`, leaves
      the other entries of `acc` alone, and gives each name the value of the
      last tag with that name. */
  lemma {:induction false} TagLabelsLastWins(tags: seq<string>, acc: map<string, string>)
    requires AddTagLabels(tags, acc).Ok?
    ensures var r := AddTagLabels(tags, acc).value;
            && (forall k :: k in r <==> k in acc || Tagged(tags, k))
            && (forall k :: k in acc && !Tagged(tags, k) ==> r[k] == acc[k])
            && (forall i, k :: LastTagged(tags, i, k) ==> r[k] == TagLabel(tags[i]).1)
    decreases |tags|
  {
    if |tags| > 0 {
      var entry := TagLabel(tags[0]);
      var acc' := acc[entry.0 := entry.1];
      var rest := tags[1..];
      TagLabelsLastWins(rest, acc');
      var r := AddTagLabels(tags, acc).value;
      assert r == AddTagLabels(rest, acc').value;
      forall k
        ensures Tagged(tags, k) <==> k == entry.0 || Tagged(rest, k)
      {
        TaggedCons(tags, k);
      }
      forall i, k | LastTagged(tags, i, k)
        ensures r[k] == TagLabel(tags[i]).1
      {
        LastTaggedCons(tags, i, k);
      }
    }
  }

  // ---------------------------------------------------------------------------
  // Owner and the flow labels
  // ---------------------------------------------------------------------------

  /** The owner: the user name up to its first `@`, if it has one. */
  function Owner(username: string): (owner: string)
    ensures '@' !in owner && owner <= username
  {
    Split(username, '@')[0]
  }

  /** The owner is the whole name when it has no `@`, and otherwise stops
      right before the first `@`. */
  lemma OwnerIsBeforeFirstAt(username: string)
    ensures Owner(username) == username || username[|Owner(username)|] == '@'
    ensures '@' !in username ==> Owner(username) == username
  {
    match IndexOf(username, '@')
    case None =>
    case Some(k) =>
      assert Split(username, '@')[0] == username[..k];
  }

  /** What `_get_flow_labels` reads: the flow name, the experiment, the user
      and system tags, the user name and the Zodiac service and team. */
  datatype LabelInputs = LabelInputs(
    flowName: string, experiment: Option<string>, tags: seq<string>, sysTags: seq<string>,
    username: string, zodiacService: Option<string>, zodiacTeam: Option<string>)

  /** The user tags, then the system tags. */
  function AllTags(x: LabelInputs): seq<string> {
    x.tags + x.sysTags
  }

  const FlowNameKey := LabelPrefix + "flow_name"
  const ExperimentKey := LabelPrefix + "experiment"
  const OwnerKey := ZodiacPrefix + "owner"
  const ServiceKey := ZodiacPrefix + "service"
  const TeamKey := ZodiacPrefix + "team"
  const ProductKey := ZodiacPrefix + "product"

  /** The labels that do not come from tags. */
  predicate FixedKey(k: string) {
    k in {FlowNameKey, ExperimentKey, OwnerKey, ServiceKey, TeamKey, ProductKey}
  }

  /** The fixed labels have distinct names. */
  lemma FixedKeysDistinct()
    ensures FlowNameKey != ExperimentKey
    ensures OwnerKey != ServiceKey && OwnerKey != TeamKey && OwnerKey != ProductKey
    ensures ServiceKey != TeamKey && ServiceKey != ProductKey && TeamKey != ProductKey
    ensures FlowNameKey != OwnerKey && FlowNameKey != ServiceKey && FlowNameKey != TeamKey && FlowNameKey != ProductKey
  {
    assert FlowNameKey[0] == 'm';
    assert OwnerKey[0] == 'z' && ServiceKey[0] == 'z' && TeamKey[0] == 'z' && ProductKey[0] == 'z';
    assert FlowNameKey[13] == 'f' && ExperimentKey[13] == 'e';
    assert OwnerKey[23] == 'o' && ServiceKey[23] == 's' && TeamKey[23] == 't' && ProductKey[23] == 'p';
  }

  /** A tag label is never one of the fixed labels. */
  lemma TagKeyNotFixed(k: string)
    requires StartsWith(k, TagPrefix)
    ensures !FixedKey(k)
  {
    assert k[0] == 'm' && k[13] == 't';
    assert FlowNameKey[13] == 'f' && ExperimentKey[13] == 'e';
    assert OwnerKey[0] == 'z' && ServiceKey[0] == 'z' && TeamKey[0] == 'z' && ProductKey[0] == 'z';
  }

  /** No tag yields a label with a fixed name. */
  lemma FixedNotTagged(tags: seq<string>, k: string)
    requires FixedKey(k)
    ensures !Tagged(tags, k)
  {
    if Tagged(tags, k) {
      var i :| 0 <= i < |tags| && TagLabel(tags[i]).0 == k;
      TagKeyNotFixed(k);
    }
  }

  /** `_get_flow_labels`: the flow name, the experiment when set, the labels
      of the user tags then the system tags, the owner, the Zodiac service and
      team when both are set, and the product `batch`. */
  function Labels(x: LabelInputs): (r: Result<map<string, string>>)
    ensures r.Ok? <==> forall i :: 0 <= i < |AllTags(x)| ==> CheckedTagLabel(AllTags(x)[i]).Ok?
    ensures r.Ok? ==> FlowNameKey in r.value && OwnerKey in r.value && ProductKey in r.value
    ensures r.Ok? ==> r.value[FlowNameKey] == x.flowName && r.value[OwnerKey] == Owner(x.username)
    ensures r.Ok? ==> r.value[ProductKey] == "batch"
    ensures r.Ok? ==> (ServiceKey in r.value <==> Truthy(x.zodiacService) && Truthy(x.zodiacTeam))
    ensures r.Ok? ==> (TeamKey in r.value <==> Truthy(x.zodiacService) && Truthy(x.zodiacTeam))
    ensures r.Ok? && Truthy(x.zodiacService) && Truthy(x.zodiacTeam) ==>
              r.value[ServiceKey] == x.zodiacService.value && r.value[TeamKey] == x.zodiacTeam.value
  {
    var base := map[FlowNameKey := x.flowName];
    var base := if Truthy(x.experiment) then base[ExperimentKey := x.experiment.value] else base;
    var tagged :- AddTagLabels(AllTags(x), base);
    TagLabelsLastWins(AllTags(x), base);
    FixedKeysDistinct();
    FixedNotTagged(AllTags(x), ServiceKey);
    FixedNotTagged(AllTags(x), TeamKey);
    FixedNotTagged(AllTags(x), FlowNameKey);
    LabelsFinish(x, base, tagged)
  }

  /** The experiment label is there exactly when an experiment is set, and
      every tag's label is there with the value of the last tag of that name. */
  lemma LabelsKeepTags(x: LabelInputs)
    requires Labels(x).Ok?
    ensures ExperimentKey in Labels(x).value <==> Truthy(x.experiment)
    ensures Truthy(x.experiment) ==> Labels(x).value[ExperimentKey] == x.experiment.value
    ensures forall i, k :: LastTagged(AllTags(x), i, k) ==> k in Labels(x).value && Labels(x).value[k] == TagLabel(AllTags(x)[i]).1
  {
    var base0 := map[FlowNameKey := x.flowName];
    var base := if Truthy(x.experiment) then base0[ExperimentKey := x.experiment.value] else base0;
    var tagged := AddTagLabels(AllTags(x), base).value;
    TagLabelsLastWins(AllTags(x), base);
    FixedKeysDistinct();
    FixedNotTagged(AllTags(x), ExperimentKey);
    assert Labels(x) == LabelsFinish(x, base, tagged);
    forall i, k | LastTagged(AllTags(x), i, k)
      ensures !FixedKey(k)
    {
      TagKeyNotFixed(k);
    }
  }

  /** Every label is a fixed one or a tag label. */
  lemma LabelKeys(x: LabelInputs)
    requires Labels(x).Ok?
    ensures forall k :: k in Labels(x).value ==> FixedKey(k) || StartsWith(k, TagPrefix)
  {
    var base0 := map[FlowNameKey := x.flowName];
    var base := if Truthy(x.experiment) then base0[ExperimentKey := x.experiment.value] else base0;
    var tagged := AddTagLabels(AllTags(x), base).value;
    TagLabelsLastWins(AllTags(x), base);
    assert Labels(x) == LabelsFinish(x, base, tagged);
    forall k | k in Labels(x).value && !FixedKey(k)
      ensures StartsWith(k, TagPrefix)
    {
      assert k in tagged && k !in base;
      var i :| 0 <= i < |AllTags(x)| && TagLabel(AllTags(x)[i]).0 == k;
    }
  }

  /** The labels that follow the tags. */
  function LabelsFinish(x: LabelInputs, base: map<string, string>, tagged: map<string, string>): (r: Result<map<string, string>>)
    ensures r.Ok? && OwnerKey in r.value && ProductKey in r.value
    ensures r.value[OwnerKey] == Owner(x.username) && r.value[ProductKey] == "batch"
    ensures ServiceKey in r.value <==> ServiceKey in tagged || (Truthy(x.zodiacService) && Truthy(x.zodiacTeam))
    ensures TeamKey in r.value <==> TeamKey in tagged || (Truthy(x.zodiacService) && Truthy(x.zodiacTeam))
    ensures Truthy(x.zodiacService) && Truthy(x.zodiacTeam) ==>
              r.value[ServiceKey] == x.zodiacService.value && r.value[TeamKey] == x.zodiacTeam.value
    ensures forall k :: k != OwnerKey && k != ServiceKey && k != TeamKey && k != ProductKey ==>
              (k in r.value <==> k in tagged) && (k in tagged ==> r.value[k] == tagged[k])
  {
    FixedKeysDistinct();
    var labels := tagged[OwnerKey := Owner(x.username)];
    var labels := if Truthy(x.zodiacService) && Truthy(x.zodiacTeam) then
                    labels[ServiceKey := x.zodiacService.value][TeamKey := x.zodiacTeam.value]
                  else labels;
    Ok(labels[ProductKey := "batch"])
  }
}
