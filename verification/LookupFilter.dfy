/**
 The filters of one definition: how they are built from its resource filters, what they ask
 to be watched, and which objects they match.
 */
module LookupFilter {
  import opened Wrappers
  import opened MeteringTypes
  import opened NamespaceWatcher
  import opened Dictionary

  // What one filter answers; the last three are errors.
  datatype Answer = Pass | Fail | NotFound | Denied | Broken

  // Label, annotation and owner filters are questions about the object alone.
  datatype Filter =
    | NamespaceFilter(namespaces: seq<string>)
    | TypeFilter(types: seq<Kind>)
    | OtherFilter(ask: Object -> Answer)

  type Group = seq<Filter>

  datatype WorkloadType = PodType | ServiceType | PvcType | UnknownType

  // A resource filter with its namespaces already looked up on the cluster, and its label,
  // annotation and owner filters; None is a failed look-up or a selector that does not parse.
  datatype ResourceFilter = ResourceFilter(
    namespaces: Option<seq<string>>, workload: WorkloadType, others: Option<seq<Object -> Answer>>)

  datatype FilterError = NamespaceLookupFailed | UnknownWorkload | BadSelector

  function AnswerOf(f: Filter, obj: Object): Answer {
    match f
    case NamespaceFilter(nses) =>
      if NAMESPACE_ALL in nses || obj.key.namespace in nses then Pass else Fail
    case TypeFilter(types) => if obj.key.kind in types then Pass else Fail
    case OtherFilter(ask) => ask(obj)
  }

  method NamespacePasses(namespaces: seq<string>, obj: Object) returns (pass: bool)
    ensures pass <==> AnswerOf(NamespaceFilter(namespaces), obj).Pass?
  {
    for i := 0 to |namespaces|
      invariant NAMESPACE_ALL !in namespaces[..i] && obj.key.namespace !in namespaces[..i]
    {
      if namespaces[i] == NAMESPACE_ALL || namespaces[i] == obj.key.namespace {
        return true;
      }
    }
    return false;
  }

  method TypePasses(types: seq<Kind>, obj: Object) returns (pass: bool)
    ensures pass <==> AnswerOf(TypeFilter(types), obj).Pass?
  {
    for i := 0 to |types|
      invariant obj.key.kind !in types[..i]
    {
      if types[i] == obj.key.kind {
        return true;
      }
    }
    return false;
  }

  method Ask(f: Filter, obj: Object) returns (a: Answer)
    ensures a == AnswerOf(f, obj)
  {
    match f
    case NamespaceFilter(namespaces) =>
      var pass := NamespacePasses(namespaces, obj);
      a := if pass then Pass else Fail;
    case TypeFilter(types) =>
      var pass := TypePasses(types, obj);
      a := if pass then Pass else Fail;
    case OtherFilter(ask) => a := ask(obj);
  }

  // The first filter that does not pass decides a group; an empty group fails.
  function GroupAnswer(g: Group, obj: Object): Answer {
    if g == [] then Fail
    else if !AnswerOf(g[0], obj).Pass? then AnswerOf(g[0], obj)
    else if |g| == 1 then Pass
    else GroupAnswer(g[1..], obj)
  }

  method Test(g: Group, obj: Object) returns (a: Answer, filterIndex: int)
    ensures a == GroupAnswer(g, obj)
    ensures filterIndex == -1 <==> g == [] || a.Pass?
    ensures filterIndex != -1 ==> 0 <= filterIndex < |g| && a == AnswerOf(g[filterIndex], obj)
    ensures forall j | 0 <= j < filterIndex :: AnswerOf(g[j], obj).Pass?
  {
    filterIndex := -1;
    a := Fail;
    if |g| == 0 {
      return;
    }
    for i := 0 to |g|
      invariant filterIndex == -1
      invariant forall j | 0 <= j < i :: AnswerOf(g[j], obj).Pass?
      invariant i > 0 ==> a == Pass
      invariant GroupAnswer(g, obj) == if i == |g| then Pass else GroupAnswer(g[i..], obj)
    {
      a := Ask(g[i], obj);
      assert g[i..][0] == g[i] && g[i..][1..] == g[i + 1..];
      if !a.Pass? {
        filterIndex := i;
        return;
      }
    }
  }

  lemma {:induction false} PassingGroup(g: Group, obj: Object, i: nat)
    requires GroupAnswer(g, obj).Pass? && i < |g|
    ensures AnswerOf(g[i], obj).Pass?
  {
    if i > 0 {
      PassingGroup(g[1..], obj, i - 1);
    }
  }

  // The first group that does not simply fail decides what a definition answers.
  function DefinitionAnswer(groups: seq<Group>, obj: Object): MatchOutcome {
    if groups == [] then Unmatched
    else if GroupAnswer(groups[0], obj).Fail? then DefinitionAnswer(groups[1..], obj)
    else Outcome(GroupAnswer(groups[0], obj))
  }

  // An object that vanished while it was tested does not match; access problems are reported
  // apart from other errors.
  function Outcome(a: Answer): MatchOutcome {
    match a
    case Pass => Matched
    case Fail => Unmatched
    case NotFound => Unmatched
    case Denied => AccessDenied
    case Broken => Failed
  }

  method Matches(groups: seq<Group>, obj: Object) returns (outcome: MatchOutcome)
    ensures outcome == DefinitionAnswer(groups, obj)
  {
    for n := 0 to |groups|
      invariant DefinitionAnswer(groups, obj) == DefinitionAnswer(groups[n..], obj)
    {
      var a, i := Test(groups[n], obj);
      if !a.Fail? {
        return Outcome(a);
      }
    }
    return Unmatched;
  }

  lemma {:induction false} SomeGroupMatched(groups: seq<Group>, obj: Object) returns (n: nat)
    requires DefinitionAnswer(groups, obj).Matched?
    ensures n < |groups| && GroupAnswer(groups[n], obj).Pass?
  {
    n := 0;
    if GroupAnswer(groups[0], obj).Fail? {
      n := SomeGroupMatched(groups[1..], obj);
      n := n + 1;
    }
  }

  function Types(g: Group): seq<Kind> {
    if g == [] then [] else if g[0].TypeFilter? then g[0].types else Types(g[1..])
  }

  function Namespaces(g: Group): seq<string> {
    if g == [] then [] else if g[0].NamespaceFilter? then g[0].namespaces else Namespaces(g[1..])
  }

  predicate GroupAsks(g: Group, ns: string, t: Kind) {
    ns in Namespaces(g) && t in Types(g)
  }

  // A definition asks for every type of a group in every namespace of the same group.
  ghost predicate IsDemandOf(groups: seq<Group>, d: Demand) {
    forall ns, t :: Asks(d, ns, t) <==> exists i :: 0 <= i < |groups| && GroupAsks(groups[i], ns, t)
  }

  method GetNamespaces(groups: seq<Group>) returns (d: Demand)
    ensures IsDemandOf(groups, d)
  {
    d := map[];
    for i := 0 to |groups|
      invariant forall ns, t :: Asks(d, ns, t) <==> exists k :: 0 <= k < i && GroupAsks(groups[k], ns, t)
    {
      ghost var before := d;
      var types, nses := Types(groups[i]), Namespaces(groups[i]);
      for j := 0 to |nses|
        invariant forall ns, t :: Asks(d, ns, t) <==> Asks(before, ns, t) || (ns in nses[..j] && t in types)
      {
        ghost var last := d;
        d := d[nses[j] := (if nses[j] in d then d[nses[j]] else []) + types];
        assert forall ns, t :: Asks(d, ns, t) <==> Asks(last, ns, t) || (ns == nses[j] && t in types);
        assert nses[..j + 1] == nses[..j] + [nses[j]];
      }
      forall ns, t ensures Asks(d, ns, t) <==> exists k :: 0 <= k < i + 1 && GroupAsks(groups[k], ns, t) {
        assert Asks(d, ns, t) <==> Asks(before, ns, t) || GroupAsks(groups[i], ns, t);
      }
    }
  }

  // Every group starts with its namespaces, then its type.
  ghost predicate WellFormed(groups: seq<Group>) {
    forall i | 0 <= i < |groups| :: |groups[i]| >= 2 && groups[i][0].NamespaceFilter? && groups[i][1].TypeFilter?
  }

  function KindOf(w: WorkloadType): Option<Kind> {
    match w
    case PodType => Some(Pod)
    case ServiceType => Some(Service)
    case PvcType => Some(PersistentVolumeClaim)
    case UnknownType => None
  }

  predicate Buildable(s: ResourceFilter) {
    s.namespaces.Some? && KindOf(s.workload).Some? && s.others.Some?
  }

  // The group is the namespaces, the workload type, then the other filters in order.
  ghost predicate BuiltFrom(s: ResourceFilter, g: Group) {
    && Buildable(s)
    && |g| == 2 + |s.others.value|
    && g[0] == NamespaceFilter(s.namespaces.value)
    && g[1] == TypeFilter([KindOf(s.workload).value])
    && forall j | 0 <= j < |s.others.value| :: g[2 + j] == OtherFilter(s.others.value[j])
  }

  ghost predicate FailsFirst(specs: seq<ResourceFilter>, i: nat, e: FilterError) {
    && i < |specs| && !Buildable(specs[i])
    && (forall j | 0 <= j < i :: Buildable(specs[j]))
    && e == if specs[i].namespaces.None? then NamespaceLookupFailed
            else if KindOf(specs[i].workload).None? then UnknownWorkload else BadSelector
  }

  // On the fields: what each workload type becomes.
  ghost predicate TypedAs(w: WorkloadType, f: Filter) {
    match w
    case PodType => f == TypeFilter([Pod])
    case ServiceType => f == TypeFilter([Service])
    case PvcType => f == TypeFilter([PersistentVolumeClaim])
    case UnknownType => false
  }

  method CreateFilters(specs: seq<ResourceFilter>) returns (r: Result<seq<Group>, FilterError>)
    ensures r.Ok? ==> |r.value| == |specs| && forall i | 0 <= i < |specs| ::
      |r.value[i]| >= 2 && TypedAs(specs[i].workload, r.value[i][1])
    ensures r.Ok? <==> forall s | s in specs :: Buildable(s)
    ensures r.Ok? ==> WellFormed(r.value) && |r.value| == |specs|
    ensures r.Ok? ==> forall i | 0 <= i < |specs| :: BuiltFrom(specs[i], r.value[i])
    ensures r.Err? ==> exists i :: FailsFirst(specs, i, r.error)
  {
    var filters := [];
    for i := 0 to |specs|
      invariant |filters| == i && WellFormed(filters)
      invariant forall j | 0 <= j < i :: Buildable(specs[j])
      invariant forall j | 0 <= j < i :: BuiltFrom(specs[j], filters[j])
    {
      assert specs[i] in specs;
      if specs[i].namespaces.None? {
        assert FailsFirst(specs, i, NamespaceLookupFailed);
        return Err(NamespaceLookupFailed);
      }
      var kind;
      match specs[i].workload {
        case PodType => kind := Pod;
        case ServiceType => kind := Service;
        case PvcType => kind := PersistentVolumeClaim;
        case UnknownType =>
          assert FailsFirst(specs, i, UnknownWorkload);
          return Err(UnknownWorkload);
      }
      if specs[i].others.None? {
        assert FailsFirst(specs, i, BadSelector);
        return Err(BadSelector);
      }
      var others := specs[i].others.value;
      var rest := seq(|others|, j requires 0 <= j < |others| => OtherFilter(others[j]));
      var group := [NamespaceFilter(specs[i].namespaces.value), TypeFilter([kind])] + rest;
      filters := filters + [group];
    }
    return Ok(filters);
  }

  // On the fields: a definition asks for exactly the types of each group in the namespaces of the
  // same group.
  lemma DemandByFields(groups: seq<Group>, d: Demand, ns: string, t: Kind)
    requires WellFormed(groups) && IsDemandOf(groups, d)
    ensures (ns in d && t in d[ns]) <==>
      exists i :: 0 <= i < |groups| && ns in groups[i][0].namespaces && t in groups[i][1].types
  {
    assert Asks(d, ns, t) <==> (ns in d && t in d[ns]);
    forall i | 0 <= i < |groups|
      ensures GroupAsks(groups[i], ns, t) <==> ns in groups[i][0].namespaces && t in groups[i][1].types
    {
      assert Namespaces(groups[i]) == groups[i][0].namespaces;
      assert Types(groups[i]) == Types(groups[i][1..]) == groups[i][1].types;
    }
  }

  // The objects a filter lets through.
  predicate Passes(f: Filter, obj: Object) {
    match f
    case NamespaceFilter(nses) => "" in nses || obj.key.namespace in nses
    case TypeFilter(types) => obj.key.kind in types
    case OtherFilter(ask) => ask(obj).Pass?
  }

  lemma {:induction false} GroupPassesIff(g: Group, obj: Object)
    ensures GroupAnswer(g, obj).Pass? <==> g != [] && forall i | 0 <= i < |g| :: Passes(g[i], obj)
  {
    if g != [] {
      assert AnswerOf(g[0], obj).Pass? <==> Passes(g[0], obj);
      assert g == [g[0]] + g[1..];
      if |g| > 1 {
        GroupPassesIff(g[1..], obj);
      }
    }
  }

  // The first group that does not simply fail, if there is one.
  ghost predicate Decides(groups: seq<Group>, obj: Object, n: nat) {
    n < |groups| && !GroupAnswer(groups[n], obj).Fail?
    && forall i | 0 <= i < n :: GroupAnswer(groups[i], obj).Fail?
  }

  lemma {:induction false} DecidingGroup(groups: seq<Group>, obj: Object, n: nat)
    requires Decides(groups, obj, n)
    ensures DefinitionAnswer(groups, obj).Matched? <==> GroupAnswer(groups[n], obj).Pass?
    ensures DefinitionAnswer(groups, obj).Unmatched? <==> GroupAnswer(groups[n], obj).NotFound?
    ensures DefinitionAnswer(groups, obj).AccessDenied? <==> GroupAnswer(groups[n], obj).Denied?
    ensures DefinitionAnswer(groups, obj).Failed? <==> GroupAnswer(groups[n], obj).Broken?
  {
    if n > 0 {
      assert GroupAnswer(groups[0], obj).Fail?;
      assert forall i | 0 <= i < n - 1 :: groups[1..][i] == groups[i + 1];
      DecidingGroup(groups[1..], obj, n - 1);
    }
  }

  lemma {:induction false} NoGroupDecides(groups: seq<Group>, obj: Object)
    requires forall i | 0 <= i < |groups| :: GroupAnswer(groups[i], obj).Fail?
    ensures DefinitionAnswer(groups, obj).Unmatched?
  {
    if groups != [] {
      NoGroupDecides(groups[1..], obj);
    }
  }

  // A definition matches an object exactly if, behind groups that simply fail, there is one whose
  // filters all let it through: its namespaces list the object's or all, its types the object's
  // kind, and its other filters pass.
  lemma MatchedIff(groups: seq<Group>, obj: Object)
    ensures DefinitionAnswer(groups, obj).Matched? <==> exists n: nat :: MatchesFirst(groups, obj, n)
  {
    if n: nat :| MatchesFirst(groups, obj, n) {
      GroupPassesIff(groups[n], obj);
      DecidingGroup(groups, obj, n);
    }
    if DefinitionAnswer(groups, obj).Matched? {
      var n := FirstDeciding(groups, obj);
      DecidingGroup(groups, obj, n);
      GroupPassesIff(groups[n], obj);
      assert MatchesFirst(groups, obj, n);
    }
  }

  ghost predicate MatchesFirst(groups: seq<Group>, obj: Object, n: nat) {
    && n < |groups| && groups[n] != []
    && (forall i | 0 <= i < |groups[n]| :: Passes(groups[n][i], obj))
    && forall i | 0 <= i < n :: GroupAnswer(groups[i], obj).Fail?
  }

  lemma {:induction false} FirstDeciding(groups: seq<Group>, obj: Object) returns (n: nat)
    requires DefinitionAnswer(groups, obj).Matched?
    ensures Decides(groups, obj, n)
  {
    if GroupAnswer(groups[0], obj).Fail? {
      n := FirstDeciding(groups[1..], obj);
      n := n + 1;
      assert forall i | 0 < i < n :: groups[i] == groups[1..][i - 1];
    } else {
      n := 0;
    }
  }

  // A group simply fails exactly if its first filter not passing, or an empty group, says so.
  lemma {:induction false} GroupFailsIff(g: Group, obj: Object)
    ensures GroupAnswer(g, obj).Fail? <==> g == [] || exists i: nat :: FailsAt(g, obj, i)
  {
    if g != [] {
      if Passes(g[0], obj) && |g| > 1 {
        GroupFailsIff(g[1..], obj);
        if i: nat :| FailsAt(g, obj, i) {
          assert i > 0;
          assert FailsAt(g[1..], obj, i - 1);
        }
        if i: nat :| FailsAt(g[1..], obj, i) {
          assert forall j | 0 < j < i + 1 :: g[j] == g[1..][j - 1];
          assert FailsAt(g, obj, i + 1);
        }
      } else if !Passes(g[0], obj) && AnswerOf(g[0], obj).Fail? {
        assert FailsAt(g, obj, 0);
      }
    }
  }

  ghost predicate FailsAt(g: Group, obj: Object, i: nat) {
    && i < |g| && (forall j | 0 <= j < i :: Passes(g[j], obj))
    && !Passes(g[i], obj) && (g[i].OtherFilter? ==> g[i].ask(obj).Fail?)
  }

  // A matched object lies in what its definition asks to be watched.
  lemma MatchImpliesDemand(groups: seq<Group>, obj: Object, d: Demand)
    requires WellFormed(groups) && IsDemandOf(groups, d)
    requires DefinitionAnswer(groups, obj).Matched?
    ensures Covers(d, obj.key.namespace, obj.key.kind)
  {
    var n := SomeGroupMatched(groups, obj);
    var g := groups[n];
    PassingGroup(g, obj, 0);
    PassingGroup(g, obj, 1);
    assert Namespaces(g) == g[0].namespaces;
    assert Types(g) == Types(g[1..]) == g[1].types;
    assert GroupAsks(g, NAMESPACE_ALL, obj.key.kind) || GroupAsks(g, obj.key.namespace, obj.key.kind);
  }
}
