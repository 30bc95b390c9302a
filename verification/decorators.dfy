/** Step decorators and the per-step component derived from them
    (`AIPComponent`, `build_aip_component`, `_get_retries`,
    `_get_minutes_between_retries`, `_get_retry_backoff_factor`,
    `_to_k8s_resource_format`, `_get_resource_requirements`). */
module Decorators {
  import opened Results
  import opened Text

  /** A decorator attribute value. A float carries its printed form (`str(x)`)
      and the integer `int(x)` truncates it to: float parsing and printing are
      outside the model. */
  datatype AttrValue =
    | IntValue(i: int)
    | FloatValue(repr: string, truncated: int)
    | StrValue(s: string)

  /** `str(value)`. */
  function AttrString(v: AttrValue): string {
    match v
    case IntValue(i) => IntToString(i)
    case FloatValue(repr, _) => repr
    case StrValue(s) => s
  }

  /** A Kubernetes environment variable carried by the environment decorator. */
  datatype EnvVar = EnvVar(name: string, value: string)

  /** A preceding-component binding attribute: either one space-separated string
      or an explicit list of field names. */
  datatype Binding = Words(text: string) | Names(names: seq<string>)

  /** The attributes of the internal AIP decorator that the compiler reads. */
  datatype AipSettings = AipSettings(
    precedingComponent: Option<string>,  // the preceding component function, by name
    precedingInputs: Binding,
    precedingOutputs: Binding,
    image: Option<string>)

  /** The decorator classes the compiler tells apart with `isinstance`. Every
      other decorator, `@retry` and `@card` included, is `Generic` and is
      recognised by its name. */
  datatype DecoratorKind =
    | Resources(attributes: map<string, Option<AttrValue>>)
    | Accelerator(acceleratorType: Option<string>)
    | Interruptible
    | Environment(kubernetesVars: seq<EnvVar>)
    | AipInternal(aip: AipSettings)
    | Batch
    | Schedule
    | Generic(attributes: map<string, Option<AttrValue>>)

  /** A step decorator: its name, its class, and the pair its
      `step_task_retry_count()` reports (user-code retries, error retries). */
  datatype Decorator = Decorator(name: string, kind: DecoratorKind, userCodeRetries: nat, errorRetries: nat)

  /** `deco.attributes` as a plain attribute map; typed decorators expose none here. */
  function Attributes(d: Decorator): map<string, Option<AttrValue>> {
    if d.kind.Resources? || d.kind.Generic? then d.kind.attributes else map[]
  }

  /** `attributes.get(key)`. */
  function GetAttribute(d: Decorator, key: string): Option<AttrValue> {
    var attrs := Attributes(d);
    if key in attrs then attrs[key] else None
  }

  /** The classes in `UNSUPPORTED_DECORATORS`. */
  predicate Unsupported(d: Decorator) {
    d.kind.Batch? || d.kind.Schedule?
  }

  // ---------------------------------------------------------------------------
  // Retries

  /** The largest user-code and error retry counts over the decorators, as
      `_get_retries` accumulates them from left to right. */
  function MaxRetryCounts(decos: seq<Decorator>): (r: (nat, nat))
    ensures forall i :: 0 <= i < |decos| ==> decos[i].userCodeRetries <= r.0 && decos[i].errorRetries <= r.1
    ensures r.0 == 0 || exists i :: 0 <= i < |decos| && decos[i].userCodeRetries == r.0
    ensures r.1 == 0 || exists i :: 0 <= i < |decos| && decos[i].errorRetries == r.1
  {
    if |decos| == 0 then (0, 0)
    else
      var prev := MaxRetryCounts(decos[..|decos| - 1]);
      var last := decos[|decos| - 1];
      var user := if last.userCodeRetries > prev.0 then last.userCodeRetries else prev.0;
      var error := if last.errorRetries > prev.1 then last.errorRetries else prev.1;
      assert forall i :: 0 <= i < |decos| - 1 ==> decos[..|decos| - 1][i] == decos[i];
      (user, error)
  }

  /** `_get_retries`: (user-code retries, total retries), the total being the
      largest user-code count plus the largest error count. */
  function Retries(decos: seq<Decorator>): (r: (nat, nat))
    ensures forall i :: 0 <= i < |decos| ==> decos[i].userCodeRetries <= r.0
    ensures r.0 == 0 || exists i :: 0 <= i < |decos| && decos[i].userCodeRetries == r.0
    ensures r.0 <= r.1
    ensures forall i :: 0 <= i < |decos| ==> r.0 + decos[i].errorRetries <= r.1
    ensures r.1 == r.0 || exists i :: 0 <= i < |decos| && r.1 == r.0 + decos[i].errorRetries
    ensures r.1 > 0 <==> exists i :: 0 <= i < |decos| && (decos[i].userCodeRetries > 0 || decos[i].errorRetries > 0)
  {
    var counts := MaxRetryCounts(decos);
    (counts.0, counts.0 + counts.1)
  }

  /** With no decorators both counts are zero. */
  lemma RetriesOfNoDecorators()
    ensures Retries([]) == (0, 0)
  {
  }

  /** The position of the first decorator whose kind satisfies `p`. */
  function FirstWhere(decos: seq<Decorator>, p: Decorator -> bool): (r: Option<nat>)
    ensures r.None? <==> forall i :: 0 <= i < |decos| ==> !p(decos[i])
    ensures r.Some? ==> r.value < |decos| && p(decos[r.value])
    ensures r.Some? ==> forall j :: 0 <= j < r.value ==> !p(decos[j])
  {
    if |decos| == 0 then None
    else if p(decos[0]) then Some(0)
    else
      var rest := FirstWhere(decos[1..], p);
      if rest.None? then None else Some(rest.value + 1)
  }

  /** Position `k` holds the first decorator satisfying `p`. */
  predicate IsFirst(decos: seq<Decorator>, p: Decorator -> bool, k: nat) {
    k < |decos| && p(decos[k]) && forall j :: 0 <= j < k ==> !p(decos[j])
  }

  /** `FirstWhere` finds the first satisfying position. */
  lemma FirstWhereIsFirst(decos: seq<Decorator>, p: Decorator -> bool, k: nat)
    requires IsFirst(decos, p, k)
    ensures FirstWhere(decos, p) == Some(k)
  {
  }

  lemma FirstWhereFindsFirst(decos: seq<Decorator>, p: Decorator -> bool)
    ensures forall k: nat :: IsFirst(decos, p, k) ==> FirstWhere(decos, p) == Some(k)
  {
    forall k: nat | IsFirst(decos, p, k) {
      FirstWhereIsFirst(decos, p, k);
    }
  }

  predicate IsRetry(d: Decorator) {
    d.name == "retry"
  }

  /** `_get_minutes_between_retries`: the `minutes_between_retries` attribute of
      the FIRST decorator named `retry`, suffixed with `m` when it is a number or
      a decimal string, passed through otherwise, and None without a retry
      decorator. */
  function MinutesBetweenRetries(decos: seq<Decorator>): (r: Option<string>)
    ensures (forall i :: 0 <= i < |decos| ==> !IsRetry(decos[i])) ==> r == None
    ensures r.Some? ==> exists i :: 0 <= i < |decos| && IsRetry(decos[i])
  {
    match FirstWhere(decos, IsRetry)
    case None => None
    case Some(k) =>
      match GetAttribute(decos[k], "minutes_between_retries")
      case None => None
      case Some(v) =>
        match v
        case IntValue(_) => Some(AttrString(v) + "m")
        case FloatValue(_, _) => Some(AttrString(v) + "m")
        case StrValue(s) => if IsDecimal(s) then Some(s + "m") else Some(s)
  }

  /** A whole number of minutes given as an integer or a decimal string becomes
      that number followed by `m`; any other string is passed through unchanged. */
  lemma MinutesBetweenRetriesUnits(decos: seq<Decorator>, k: nat)
    requires k < |decos| && IsRetry(decos[k])
    requires forall j :: 0 <= j < k ==> !IsRetry(decos[j])
    ensures forall n: nat :: GetAttribute(decos[k], "minutes_between_retries") == Some(IntValue(n)) ==>
              MinutesBetweenRetries(decos) == Some(NatToString(n) + "m")
    ensures forall s :: GetAttribute(decos[k], "minutes_between_retries") == Some(StrValue(s)) ==>
              MinutesBetweenRetries(decos) == if IsDecimal(s) then Some(s + "m") else Some(s)
  {
    assert FirstWhere(decos, IsRetry) == Some(k);
  }

  /** `_get_retry_backoff_factor`: `int()` of the FIRST retry decorator's
      `retry_backoff_factor`, None without a retry decorator; `int(None)` and
      `int("x")` are the errors the source raises. */
  function RetryBackoffFactor(decos: seq<Decorator>): (r: Result<Option<int>>)
    ensures (forall i :: 0 <= i < |decos| ==> !IsRetry(decos[i])) <==> r == Ok(None)
  {
    match FirstWhere(decos, IsRetry)
    case None => Ok(None)
    case Some(k) =>
      match GetAttribute(decos[k], "retry_backoff_factor")
      case None => Err(MissingAttribute("retry_backoff_factor"))
      case Some(v) =>
        match v
        case IntValue(i) => Ok(Some(i))
        case FloatValue(_, t) => Ok(Some(t))
        case StrValue(s) =>
          var n :- ParseInt(s);
          Ok(Some(n))
  }

  /** The factor is `int()` of the first retry decorator's attribute: an
      integer as is, a float truncated, a string through `ParseInt` with its
      failure, and a missing attribute the error `int(None)` raises. */
  lemma RetryBackoffFactorOfFirst(decos: seq<Decorator>, k: nat)
    requires IsFirst(decos, IsRetry, k)
    ensures var a := GetAttribute(decos[k], "retry_backoff_factor");
            && (a.None? ==> RetryBackoffFactor(decos) == Err(MissingAttribute("retry_backoff_factor")))
            && (a.Some? && a.value.IntValue? ==> RetryBackoffFactor(decos) == Ok(Some(a.value.i)))
            && (a.Some? && a.value.FloatValue? ==> RetryBackoffFactor(decos) == Ok(Some(a.value.truncated)))
            && (a.Some? && a.value.StrValue? && ParseInt(a.value.s).Ok? ==>
                  RetryBackoffFactor(decos) == Ok(Some(ParseInt(a.value.s).value)))
            && (a.Some? && a.value.StrValue? && ParseInt(a.value.s).Err? ==>
                  RetryBackoffFactor(decos) == Err(ParseInt(a.value.s).error))
  {
    FirstWhereIsFirst(decos, IsRetry, k);
  }

  // ---------------------------------------------------------------------------
  // Resources

  /** The resources whose bare numbers are taken to be megabytes. */
  predicate MegabyteDefault(resource: string) {
    resource == "memory" || resource == "volume"
  }

  /** `_to_k8s_resource_format`: stringify the value, and give a bare number for
      memory or volume the `M` (megabyte) suffix. */
  function ToK8sResourceFormat(resource: string, value: AttrValue): (r: string)
    ensures MegabyteDefault(resource) && IsDecimal(AttrString(value)) ==> r == AttrString(value) + "M"
    ensures !(MegabyteDefault(resource) && IsDecimal(AttrString(value))) ==> r == AttrString(value)
  {
    var text := AttrString(value);
    if MegabyteDefault(resource) && IsDecimal(text) then text + "M" else text
  }

  /** Formatting is idempotent: a formatted value is never a bare number for
      memory or volume, so formatting it again changes nothing. */
  lemma ToK8sResourceFormatIdempotent(resource: string, value: AttrValue)
    ensures ToK8sResourceFormat(resource, StrValue(ToK8sResourceFormat(resource, value)))
         == ToK8sResourceFormat(resource, value)
  {
    var once := ToK8sResourceFormat(resource, value);
    if MegabyteDefault(resource) && IsDecimal(AttrString(value)) {
      assert !IsDigit(once[|once| - 1]);
    }
  }

  /** A non-negative integer memory request `n` becomes `"<n>M"`, which reads
      back as `n` megabytes. */
  lemma MemoryIntegerGetsMegabytes(n: nat)
    ensures ToK8sResourceFormat("memory", IntValue(n)) == NatToString(n) + "M"
    ensures ParseInt(ToK8sResourceFormat("memory", IntValue(n))[..|NatToString(n)|]) == Ok(n)
  {
    var formatted := ToK8sResourceFormat("memory", IntValue(n));
    assert formatted[..|NatToString(n)|] == NatToString(n);
    IntToStringRoundTrip(n);
  }

  /** The formatted attributes a resources decorator sets: every attribute whose
      value is not None. */
  function SetAttributes(attrs: map<string, Option<AttrValue>>): (m: map<string, string>)
    ensures forall k :: k in m <==> k in attrs && attrs[k].Some?
    ensures forall k :: k in m ==> m[k] == ToK8sResourceFormat(k, attrs[k].value)
  {
    map k | k in attrs && attrs[k].Some? :: ToK8sResourceFormat(k, attrs[k].value)
  }

  /** True of a resources decorator that asks for the deprecated `local_storage`. */
  predicate AsksLocalStorage(d: Decorator) {
    d.kind.Resources? && "local_storage" in d.kind.attributes && d.kind.attributes["local_storage"].Some?
  }

  /** True when decorator `d` is a resources decorator that sets `key`. */
  predicate SetsResource(d: Decorator, key: string) {
    d.kind.Resources? && key in d.kind.attributes && d.kind.attributes[key].Some?
  }

  /** `_get_resource_requirements`: the union of the formatted attributes of all
      resources decorators, later decorators winning, or the ValueError for a
      `local_storage` request. */
  function ResourceRequirements(decos: seq<Decorator>): (r: Result<map<string, string>>)
    ensures r.Err? <==> exists i :: 0 <= i < |decos| && AsksLocalStorage(decos[i])
    ensures r.Err? ==> r.error == DeprecatedLocalStorage
  {
    if |decos| == 0 then Ok(map[])
    else
      var init := decos[..|decos| - 1];
      assert forall i :: 0 <= i < |init| ==> init[i] == decos[i];
      var acc :- ResourceRequirements(init);
      var last := decos[|decos| - 1];
      if last.kind.Resources? then
        if AsksLocalStorage(last) then Err(DeprecatedLocalStorage)
        else Ok(acc + SetAttributes(last.kind.attributes))
      else Ok(acc)
  }

  /** The requirements hold exactly the resources some decorator sets. */
  lemma {:induction false} ResourceRequirementsKeys(decos: seq<Decorator>)
    requires ResourceRequirements(decos).Ok?
    ensures forall k :: k in ResourceRequirements(decos).value <==>
              exists i :: 0 <= i < |decos| && SetsResource(decos[i], k)
  {
    if |decos| > 0 {
      var init := decos[..|decos| - 1];
      assert forall i :: 0 <= i < |init| ==> init[i] == decos[i];
      ResourceRequirementsKeys(init);
      var m := ResourceRequirements(decos).value;
      forall k | (exists i :: 0 <= i < |decos| && SetsResource(decos[i], k))
        ensures k in m
      {
        var i :| 0 <= i < |decos| && SetsResource(decos[i], k);
        if i < |decos| - 1 {
          assert SetsResource(init[i], k);
        }
      }
    }
  }

  /** Each requirement is formatted from the LAST resources decorator that sets it. */
  /** One step of `ResourceRequirements`: the requirements of all decorators
      are those of all but the last, updated by the last one's attributes. */
  lemma ResourceRequirementsStep(decos: seq<Decorator>)
    requires |decos| > 0 && ResourceRequirements(decos).Ok?
    ensures ResourceRequirements(decos[..|decos| - 1]).Ok?
    ensures var acc := ResourceRequirements(decos[..|decos| - 1]).value;
            var last := decos[|decos| - 1];
            ResourceRequirements(decos).value == if last.kind.Resources? then acc + SetAttributes(last.kind.attributes) else acc
  {
  }

  lemma {:induction false} ResourceRequirementsLastWins(decos: seq<Decorator>, k: string)
    requires ResourceRequirements(decos).Ok?
    requires k in ResourceRequirements(decos).value
    ensures exists i :: 0 <= i < |decos| && SetsResource(decos[i], k)
              && ResourceRequirements(decos).value[k] == ToK8sResourceFormat(k, decos[i].kind.attributes[k].value)
              && forall j :: i < j < |decos| ==> !SetsResource(decos[j], k)
  {
    var n := |decos| - 1;
    var init := decos[..n];
    ResourceRequirementsStep(decos);
    var m := ResourceRequirements(decos).value;
    var acc := ResourceRequirements(init).value;
    var last := decos[n];
    if SetsResource(last, k) {
      assert m[k] == ToK8sResourceFormat(k, last.kind.attributes[k].value);
    } else {
      assert k in acc && m[k] == acc[k];
      ResourceRequirementsLastWins(init, k);
      var i :| 0 <= i < |init| && SetsResource(init[i], k)
            && acc[k] == ToK8sResourceFormat(k, init[i].kind.attributes[k].value)
            && forall j :: i < j < |init| ==> !SetsResource(init[j], k);
      assert init[i] == decos[i];
      assert forall j :: i < j < |decos| ==> !SetsResource(decos[j], k) by {
        forall j | i < j < |decos|
          ensures !SetsResource(decos[j], k)
        {
          if j < n {
            assert init[j] == decos[j];
          }
        }
      }
    }
  }


  // ---------------------------------------------------------------------------
  // Components

  /** The per-step record the DAG walk reads (`AIPComponent`). The accelerator
      field is None without an accelerator decorator and otherwise holds that
      decorator's (possibly missing) `type`. */
  datatype Component = Component(
    stepName: string,
    taskId: string,
    resourceRequirements: map<string, string>,
    aip: Option<AipSettings>,
    accelerator: Option<Option<string>>,
    interruptible: bool,
    environment: Option<seq<EnvVar>>,
    userCodeRetries: nat,
    totalRetries: nat,
    minutesBetweenRetries: Option<string>,
    retryBackoffFactor: Option<int>,
    precedingFunc: Option<string>,
    precedingInputs: seq<string>,
    precedingOutputs: seq<string>)

  predicate IsAip(d: Decorator) { d.kind.AipInternal? }
  predicate IsAccelerator(d: Decorator) { d.kind.Accelerator? }
  predicate IsInterruptible(d: Decorator) { d.kind.Interruptible? }
  predicate IsEnvironment(d: Decorator) { d.kind.Environment? }

  /** The binding list of an AIP decorator attribute: a string is split on
      single spaces, a list is taken as is. */
  function BindingNames(b: Binding): (names: seq<string>)
    ensures b.Words? ==> |names| > 0 && Join(names, ' ') == b.text
    ensures b.Words? ==> forall i :: 0 <= i < |names| ==> ' ' !in names[i]
    ensures b.Names? ==> names == b.names
  {
    match b
    case Words(text) =>
      SplitJoinRoundTrip(text, ' ');
      Split(text, ' ')
    case Names(ns) => ns
  }

  /** The settings of the first AIP decorator. */
  function FirstAip(decos: seq<Decorator>): (r: Option<AipSettings>)
    ensures r.None? <==> forall i :: 0 <= i < |decos| ==> !IsAip(decos[i])
    ensures forall k: nat :: IsFirst(decos, IsAip, k) ==> r == Some(decos[k].kind.aip)
  {
    FirstWhereFindsFirst(decos, IsAip);
    match FirstWhere(decos, IsAip)
    case None => None
    case Some(k) => Some(decos[k].kind.aip)
  }

  /** The (possibly missing) `type` of the first accelerator decorator. */
  function FirstAccelerator(decos: seq<Decorator>): (r: Option<Option<string>>)
    ensures r.None? <==> forall i :: 0 <= i < |decos| ==> !IsAccelerator(decos[i])
    ensures forall k: nat :: IsFirst(decos, IsAccelerator, k) ==> r == Some(decos[k].kind.acceleratorType)
  {
    FirstWhereFindsFirst(decos, IsAccelerator);
    match FirstWhere(decos, IsAccelerator)
    case None => None
    case Some(k) => Some(decos[k].kind.acceleratorType)
  }

  /** The variables of the first environment decorator. */
  function FirstEnvironment(decos: seq<Decorator>): (r: Option<seq<EnvVar>>)
    ensures r.None? <==> forall i :: 0 <= i < |decos| ==> !IsEnvironment(decos[i])
    ensures forall k: nat :: IsFirst(decos, IsEnvironment, k) ==> r == Some(decos[k].kind.kubernetesVars)
  {
    FirstWhereFindsFirst(decos, IsEnvironment);
    match FirstWhere(decos, IsEnvironment)
    case None => None
    case Some(k) => Some(decos[k].kind.kubernetesVars)
  }

  /** Whether some decorator is @spot-style interruptible. */
  function AnyInterruptible(decos: seq<Decorator>): (b: bool)
    ensures b <==> exists i :: 0 <= i < |decos| && IsInterruptible(decos[i])
  {
    FirstWhere(decos, IsInterruptible).Some?
  }

  /** The component `build_aip_component` assembles once the decorators are
      accepted, the requirements derived and the backoff factor read: the
      retries and retry pacing, and the first decorator of each kind the walk
      needs. */
  function ComponentOf(
    stepName: string, taskId: string, decos: seq<Decorator>,
    resources: map<string, string>, backoff: Option<int>): (c: Component)
    ensures c.stepName == stepName && c.taskId == taskId
    ensures c.resourceRequirements == resources && c.retryBackoffFactor == backoff
    ensures (c.userCodeRetries, c.totalRetries) == Retries(decos)
    ensures c.totalRetries > 0 <==>
              exists i :: 0 <= i < |decos| && (decos[i].userCodeRetries > 0 || decos[i].errorRetries > 0)
    ensures c.minutesBetweenRetries == MinutesBetweenRetries(decos)
    ensures c.interruptible <==> exists i :: 0 <= i < |decos| && IsInterruptible(decos[i])
    ensures c.aip.None? <==> forall i :: 0 <= i < |decos| ==> !IsAip(decos[i])
    ensures c.accelerator.None? <==> forall i :: 0 <= i < |decos| ==> !IsAccelerator(decos[i])
    ensures c.environment.None? <==> forall i :: 0 <= i < |decos| ==> !IsEnvironment(decos[i])
    // The preceding component and its bindings come from the AIP decorator.
    ensures c.aip.None? ==> c.precedingFunc.None? && c.precedingInputs == [] && c.precedingOutputs == []
    ensures c.aip.Some? ==>
              && c.precedingFunc == c.aip.value.precedingComponent
              && c.precedingInputs == BindingNames(c.aip.value.precedingInputs)
              && c.precedingOutputs == BindingNames(c.aip.value.precedingOutputs)
  {
    var retries := Retries(decos);
    var aip := FirstAip(decos);
    var accelerator := FirstAccelerator(decos);
    var environment := FirstEnvironment(decos);
    Component(
      stepName, taskId, resources, aip, accelerator,
      AnyInterruptible(decos), environment,
      retries.0, retries.1, MinutesBetweenRetries(decos), backoff,
      if aip.Some? then aip.value.precedingComponent else None,
      if aip.Some? then BindingNames(aip.value.precedingInputs) else [],
      if aip.Some? then BindingNames(aip.value.precedingOutputs) else [])
  }

  /** The AIP settings, accelerator and environment of the component are those
      of the first decorator of each kind. */
  lemma ComponentOfTakesFirst(
    stepName: string, taskId: string, decos: seq<Decorator>,
    resources: map<string, string>, backoff: Option<int>, k: nat)
    ensures var c := ComponentOf(stepName, taskId, decos, resources, backoff);
            && (IsFirst(decos, IsAip, k) ==> c.aip == Some(decos[k].kind.aip))
            && (IsFirst(decos, IsAccelerator, k) ==> c.accelerator == Some(decos[k].kind.acceleratorType))
            && (IsFirst(decos, IsEnvironment, k) ==> c.environment == Some(decos[k].kind.kubernetesVars))
  {
  }

  /** `build_aip_component`: refuses @batch and @schedule before anything else,
      then derives resources and the retry backoff factor, either of which may
      fail, and assembles the component. */
  function BuildComponent(stepName: string, taskId: string, decos: seq<Decorator>): (r: Result<Component>)
    ensures (exists i :: 0 <= i < |decos| && Unsupported(decos[i])) ==> r == Err(UnsupportedDecorator(stepName))
    ensures r.Ok? ==> forall i :: 0 <= i < |decos| ==> !Unsupported(decos[i]) && !AsksLocalStorage(decos[i])
    ensures r.Ok? ==> r.value.stepName == stepName && r.value.taskId == taskId
    ensures r.Ok? ==> (r.value.interruptible <==> exists i :: 0 <= i < |decos| && IsInterruptible(decos[i]))
    ensures r.Ok? ==> (r.value.totalRetries > 0 <==>
              exists i :: 0 <= i < |decos| && (decos[i].userCodeRetries > 0 || decos[i].errorRetries > 0))
    ensures r.Ok? ==> (r.value.aip.None? <==> forall i :: 0 <= i < |decos| ==> !IsAip(decos[i]))
    ensures r.Ok? && r.value.aip.None? ==>
              r.value.precedingFunc.None? && r.value.precedingInputs == [] && r.value.precedingOutputs == []
  {
    match FirstWhere(decos, Unsupported)
    case Some(_) => Err(UnsupportedDecorator(stepName))
    case None =>
      var resources :- ResourceRequirements(decos);
      var backoff :- RetryBackoffFactor(decos);
      Ok(ComponentOf(stepName, taskId, decos, resources, backoff))
  }

  /** A component is built exactly when no decorator is unsupported, no
      `local_storage` is requested and the retry backoff factor reads as an
      integer; it then carries the derived requirements and backoff factor,
      and the retries, retry pacing and first decorators `ComponentOf` states. */
  lemma BuildComponentDerives(stepName: string, taskId: string, decos: seq<Decorator>)
    ensures BuildComponent(stepName, taskId, decos).Ok? <==>
              && (forall i :: 0 <= i < |decos| ==> !Unsupported(decos[i]))
              && ResourceRequirements(decos).Ok?
              && RetryBackoffFactor(decos).Ok?
    ensures BuildComponent(stepName, taskId, decos).Ok? ==>
              && ResourceRequirements(decos).Ok? && RetryBackoffFactor(decos).Ok?
              && BuildComponent(stepName, taskId, decos).value
                 == ComponentOf(stepName, taskId, decos, ResourceRequirements(decos).value, RetryBackoffFactor(decos).value)
  {
  }

  /** Scenario: two retry decorators with user-code retry counts 2 and 5 give a
      component with 5 user-code retries and 5 total retries. */
  lemma TwoRetryDecoratorsTakeTheMax()
    ensures var attrs := map["retry_backoff_factor" := Some(IntValue(2))];
            var decos := [Decorator("retry", Generic(attrs), 2, 0), Decorator("retry", Generic(attrs), 5, 0)];
            var c := BuildComponent("train", "1", decos);
            c.Ok? && c.value.userCodeRetries == 5 && c.value.totalRetries == 5
  {
    var attrs := map["retry_backoff_factor" := Some(IntValue(2))];
    var decos := [Decorator("retry", Generic(attrs), 2, 0), Decorator("retry", Generic(attrs), 5, 0)];
    assert decos[..1] == [decos[0]];
    assert MaxRetryCounts(decos[..1]) == (2, 0);
    assert MaxRetryCounts(decos) == (5, 0);
    assert FirstWhere(decos, IsRetry) == Some(0);
    assert RetryBackoffFactor(decos) == Ok(Some(2));
    assert ResourceRequirements(decos[..1]) == Ok(map[]);
    assert ResourceRequirements(decos) == Ok(map[]);
  }
}
