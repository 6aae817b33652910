/**
 * SetParameterValues: validate every parameter, then apply them object by object
 * (DM_AmxParameterValues.c and the two loops in DM_DeviceAdapter.c). Both phases walk one
 * list with a cursor that inner and outer loops share.
 */
module ParameterValues {
  import opened Common
  import opened Paths

  datatype ParameterType = IntType | LongType | UintType | UlongType | StringType | BooleanType | DateType | AnyType | UndefinedType

  /** A name the RPC layer could not read is None. */
  datatype Parameter = Parameter(name: Option<string>, kind: ParameterType, value: string)

  datatype Description = Description(kind: ParameterType, readOnly: bool)

  /** What the bus, the access rules and the configuration answer while the RPC runs. */
  datatype Bus = Bus(
    acceptablePath: string -> bool,
    describe: string -> Option<map<string, Description>>,
    setAllowed: (string, string) -> bool,
    checkType: bool,
    acceptUnsignedAsBoolean: bool)

  datatype Code = InvalidArguments | InvalidParameterName | InvalidParameterType | ReadOnlyParameter | InternalError

  datatype Fault = Fault(name: Option<string>, code: Code)

  datatype Status = Applied | UndefinedStatus

  /** Empty, or starting with "Device.". */
  predicate ValidPath(name: Option<string>) {
    name.Some? && (name.value == "" || "Device." <= name.value)
  }

  // ----- Validation: what is wrong with one parameter, on its own -----

  predicate TypeAccepted(bus: Bus, p: Parameter, d: Description) {
    || !bus.checkType
    || p.kind == d.kind
    || (bus.acceptUnsignedAsBoolean && p.kind.UintType? && d.kind.BooleanType?)
  }

  predicate Duplicate(list: seq<Parameter>, i: nat)
    requires i < |list|
  {
    list[i].name.Some? && exists j :: 0 <= j < i && list[j].name == list[i].name
  }

  /** The first fault of the i-th parameter, if any, looking at nothing but the names before it. */
  function FaultAt(bus: Bus, list: seq<Parameter>, i: nat): (r: Option<Code>)
    requires i < |list|
  {
    if !ValidPath(list[i].name) then Some(InvalidParameterName)
    else
      var objectPath := ObjectPath(list[i].name.value);
      var param := ParamName(list[i].name.value);
      if !bus.acceptablePath(objectPath) || bus.describe(objectPath).None? || param !in bus.describe(objectPath).value then
        Some(InvalidParameterName)
      else
        var d := bus.describe(objectPath).value[param];
        if !TypeAccepted(bus, list[i], d) then Some(InvalidParameterType)
        else if Duplicate(list, i) then Some(InvalidArguments)
        else if d.readOnly || !bus.setAllowed(objectPath, param) then Some(ReadOnlyParameter)
        else None
  }

  /** One fault for each bad parameter from `lo` up to `hi`, in list order. */
  function Faults(bus: Bus, list: seq<Parameter>, lo: nat, hi: nat): (r: seq<Fault>)
    requires lo <= hi <= |list|
    decreases hi
  {
    if lo == hi then []
    else
      var rest := Faults(bus, list, lo, hi - 1);
      var code := FaultAt(bus, list, hi - 1);
      if code.Some? then rest + [Fault(list[hi - 1].name, code.value)] else rest
  }

  ghost predicate AllValid(bus: Bus, list: seq<Parameter>, lo: nat, hi: nat)
    requires lo <= hi <= |list|
  {
    forall j :: lo <= j < hi ==> FaultAt(bus, list, j).None?
  }

  lemma {:induction false} NoFaultsIffAllValid(bus: Bus, list: seq<Parameter>, lo: nat, hi: nat)
    requires lo <= hi <= |list|
    ensures Faults(bus, list, lo, hi) == [] <==> AllValid(bus, list, lo, hi)
    ensures |Faults(bus, list, lo, hi)| <= hi - lo
    decreases hi
  {
    if lo < hi {
      NoFaultsIffAllValid(bus, list, lo, hi - 1);
    }
  }

  lemma {:induction false} FaultsConcat(bus: Bus, list: seq<Parameter>, lo: nat, mid: nat, hi: nat)
    requires lo <= mid <= hi <= |list|
    ensures Faults(bus, list, lo, hi) == Faults(bus, list, lo, mid) + Faults(bus, list, mid, hi)
    decreases hi
  {
    if mid < hi {
      FaultsConcat(bus, list, lo, mid, hi - 1);
    }
  }

  /** A list without faults names every parameter once. */
  lemma ValidatedNamesDistinct(bus: Bus, list: seq<Parameter>)
    requires AllValid(bus, list, 0, |list|)
    ensures forall i :: 0 <= i < |list| ==> ValidPath(list[i].name)
    ensures forall i, j :: 0 <= i < j < |list| ==> list[i].name != list[j].name
  {
    forall i, j | 0 <= i < j < |list|
      ensures list[i].name != list[j].name
    {
      assert FaultAt(bus, list, j).None?;
    }
    forall i | 0 <= i < |list|
      ensures ValidPath(list[i].name)
    {
      assert FaultAt(bus, list, i).None?;
    }
  }

  method CheckForDuplicates(list: seq<Parameter>, current: nat, faults: seq<Fault>) returns (found: bool, faults': seq<Fault>)
    requires current < |list|
    ensures found <==> Duplicate(list, current)
    ensures faults' == if found then faults + [Fault(list[current].name, InvalidArguments)] else faults
  {
    found, faults' := false, faults;
    var j := 0;
    while j < current
      invariant 0 <= j <= current && !found && faults' == faults
      invariant forall k :: 0 <= k < j ==> !(list[current].name.Some? && list[k].name == list[current].name)
    {
      if list[current].name.Some? && list[j].name.Some? && list[current].name.value == list[j].name.value {
        faults' := faults + [Fault(list[current].name, InvalidArguments)];
        found := true;
        return;
      }
      j := j + 1;
    }
  }

  /** The checks on one parameter of an object that has been looked up. */
  method CheckParameter(bus: Bus, list: seq<Parameter>, i: nat, objectPath: string,
                        description: map<string, Description>, faults: seq<Fault>)
      returns (ok: bool, faults': seq<Fault>)
    requires i < |list| && ValidPath(list[i].name) && ObjectPath(list[i].name.value) == objectPath
    requires bus.acceptablePath(objectPath) && bus.describe(objectPath) == Some(description)
    ensures ok <==> FaultAt(bus, list, i).None?
    ensures faults' == if ok then faults else faults + [Fault(list[i].name, FaultAt(bus, list, i).value)]
  {
    ok, faults' := false, faults;
    var param := ParamName(list[i].name.value);
    if param !in description {
      faults' := faults' + [Fault(list[i].name, InvalidParameterName)];
      return;
    }
    var d := description[param];
    if bus.checkType && list[i].kind != d.kind {
      if !bus.acceptUnsignedAsBoolean || !list[i].kind.UintType? || !d.kind.BooleanType? {
        faults' := faults' + [Fault(list[i].name, InvalidParameterType)];
        return;
      }
    }
    var found;
    found, faults' := CheckForDuplicates(list, i, faults');
    if found {
      return;
    }
    if d.readOnly {
      faults' := faults' + [Fault(list[i].name, ReadOnlyParameter)];
      return;
    }
    if !bus.setAllowed(objectPath, param) {
      faults' := faults' + [Fault(list[i].name, ReadOnlyParameter)];
      return;
    }
    ok := true;
  }

  /**
   * Validate the parameters of one object, starting at `start`; `i` is the last index looked at.
   * The object itself is looked up once, for its first parameter.
   */
  method ValidateObject(bus: Bus, list: seq<Parameter>, start: nat, faults: seq<Fault>)
      returns (i: nat, error: Option<Code>, faults': seq<Fault>)
    requires start < |list|
    ensures start <= i < |list|
    ensures faults' == faults + Faults(bus, list, start, i + 1)
    ensures error.None? <==> AllValid(bus, list, start, i + 1)
    ensures error.Some? ==> error.value.InvalidArguments? && AllValid(bus, list, start, i)
  {
    i, error, faults' := start, Some(InvalidArguments), faults;
    label Stop: {
      if !ValidPath(list[i].name) {
        faults' := faults' + [Fault(list[i].name, InvalidParameterName)];
        break Stop;
      }
      var path := list[i].name.value;
      var objectPath := ObjectPath(path);
      if !bus.acceptablePath(objectPath) {
        faults' := faults' + [Fault(list[i].name, InvalidParameterName)];
        break Stop;
      }
      var description := bus.describe(objectPath);
      if description.None? {
        faults' := faults' + [Fault(list[i].name, InvalidParameterName)];
        break Stop;
      }
      while ObjectPath(path) == objectPath
        invariant start <= i < |list| && list[i].name == Some(path) && ValidPath(list[i].name)
        invariant i == start ==> ObjectPath(path) == objectPath
        invariant AllValid(bus, list, start, i) && faults' == faults
        decreases |list| - i
      {
        var ok;
        ok, faults' := CheckParameter(bus, list, i, objectPath, description.value, faults');
        if !ok {
          break Stop;
        }
        i := i + 1;
        if i == |list| {
          break;
        }
        if !ValidPath(list[i].name) {
          faults' := faults' + [Fault(list[i].name, InvalidParameterName)];
          break Stop;
        }
        path := list[i].name.value;
      }
      i := i - 1;
      error := None;
    }
    NoFaultsIffAllValid(bus, list, start, i);
    NoFaultsIffAllValid(bus, list, start, i + 1);
  }

  /** The validation phase examines every index, however the groups cut the list up. */
  method ValidateAll(bus: Bus, list: seq<Parameter>) returns (error: Option<Code>, faults: seq<Fault>)
    ensures faults == Faults(bus, list, 0, |list|)
    ensures error.None? <==> faults == []
    ensures error.None? <==> AllValid(bus, list, 0, |list|)
    ensures error.Some? ==> error.value.InvalidArguments?
  {
    error, faults := None, [];
    var i := 0;
    while i < |list|
      invariant 0 <= i <= |list|
      invariant faults == Faults(bus, list, 0, i)
      invariant error.None? <==> AllValid(bus, list, 0, i)
      invariant error.Some? ==> error.value.InvalidArguments?
    {
      var last, suberror;
      last, suberror, faults := ValidateObject(bus, list, i, faults);
      FaultsConcat(bus, list, 0, i, last + 1);
      if error.None? {
        error := suberror;
      }
      i := last + 1;
    }
    NoFaultsIffAllValid(bus, list, 0, |list|);
  }

  // ----- Application -----

  /** The data model: the parameters of each object path. */
  type Values = map<string, map<string, string>>

  /** One parameter to set, its name split at the last dot. */
  datatype Assignment = Assignment(path: string, param: string, value: string)

  datatype SetCall = SetCall(path: string, params: map<string, string>)

  /** The reply of the bus to a set call. */
  datatype Answer = Accepted | Refused(faults: seq<Fault>)

  ghost predicate Named(list: seq<Parameter>) {
    forall i :: 0 <= i < |list| ==> list[i].name.Some?
  }

  ghost predicate NamedOnce(list: seq<Parameter>) {
    && Named(list)
    && (forall i, j :: 0 <= i < j < |list| ==> list[i].name != list[j].name)
  }

  function AssignmentOf(p: Parameter): (r: Assignment) {
    if p.name.Some? then Assignment(ObjectPath(p.name.value), ParamName(p.name.value), p.value)
    else Assignment("", "", p.value)
  }

  function Assignments(list: seq<Parameter>): (r: seq<Assignment>)
    ensures |r| == |list|
    ensures forall i :: 0 <= i < |list| ==> r[i] == AssignmentOf(list[i])
  {
    seq(|list|, i requires 0 <= i < |list| => AssignmentOf(list[i]))
  }

  /** `assignments` is `list` with its names split. */
  ghost predicate Splits(list: seq<Parameter>, assignments: seq<Assignment>) {
    |assignments| == |list| && forall i :: 0 <= i < |list| ==> assignments[i] == AssignmentOf(list[i])
  }

  /** The longest run of assignments to one object that starts at `lo` ends at `hi`. */
  ghost predicate IsRun(list: seq<Assignment>, lo: nat, hi: nat) {
    && lo < hi <= |list|
    && (forall j :: lo <= j < hi ==> list[j].path == list[lo].path)
    && (hi < |list| ==> list[hi].path != list[lo].path)
  }

  function RunParams(list: seq<Assignment>, lo: nat, hi: nat): (r: map<string, string>)
    requires lo <= hi <= |list|
    decreases hi
  {
    if lo == hi then map[] else RunParams(list, lo, hi - 1)[list[hi - 1].param := list[hi - 1].value]
  }

  /** The k-th call sets the k-th run. */
  ghost predicate CallAt(list: seq<Assignment>, starts: seq<nat>, calls: seq<SetCall>, k: nat)
    requires k < |calls| && |starts| == |calls| + 1
  {
    && IsRun(list, starts[k], starts[k + 1])
    && calls[k] == SetCall(list[starts[k]].path, RunParams(list, starts[k], starts[k + 1]))
  }

  /** `starts` cuts the list, up to its last entry, into runs, with one set call for each, in order. */
  ghost predicate OneCallPerRun(list: seq<Assignment>, starts: seq<nat>, calls: seq<SetCall>) {
    && |starts| == |calls| + 1 && starts[0] == 0 && starts[|calls|] <= |list|
    && forall k :: 0 <= k < |calls| ==> CallAt(list, starts, calls, k)
  }

  /** One more run after those already cut off. */
  lemma NextCall(list: seq<Assignment>, starts: seq<nat>, calls: seq<SetCall>, hi: nat)
    requires OneCallPerRun(list, starts, calls) && IsRun(list, starts[|calls|], hi)
    ensures var lo := starts[|calls|];
            OneCallPerRun(list, starts + [hi], calls + [SetCall(list[lo].path, RunParams(list, lo, hi))])
  {
    var calls' := calls + [SetCall(list[starts[|calls|]].path, RunParams(list, starts[|calls|], hi))];
    forall k | 0 <= k < |calls'|
      ensures CallAt(list, starts + [hi], calls', k)
    {
      assert k < |calls| ==> CallAt(list, starts, calls, k);
    }
  }

  function ParamsOf(values: Values, path: string): (r: map<string, string>) {
    if path in values then values[path] else map[]
  }

  function PerformSet(values: Values, call: SetCall): (values': Values) {
    values[call.path := ParamsOf(values, call.path) + call.params]
  }

  /** The faults that the bus gave with the first `n` replies. */
  function RefusalFaults(answer: nat -> Answer, n: nat): (r: seq<Fault>) {
    if n == 0 then []
    else RefusalFaults(answer, n - 1) + (if answer(n - 1).Refused? then answer(n - 1).faults else [])
  }

  /** The calls as far as the bus accepts them; a refused call changes nothing. */
  function PerformAccepted(values: Values, calls: seq<SetCall>, answer: nat -> Answer): (values': Values) {
    if calls == [] then values
    else
      var n := |calls| - 1;
      var before := PerformAccepted(values, calls[..n], answer);
      if answer(n).Accepted? then PerformSet(before, calls[n]) else before
  }

  function SetParam(values: Values, a: Assignment): (values': Values) {
    values[a.path := ParamsOf(values, a.path)[a.param := a.value]]
  }

  /** The reference: one assignment after the other. */
  function SetOneByOne(values: Values, list: seq<Assignment>, hi: nat): (values': Values)
    requires hi <= |list|
  {
    if hi == 0 then values else SetParam(SetOneByOne(values, list, hi - 1), list[hi - 1])
  }

  lemma MergeAdd(m: map<string, string>, params: map<string, string>, param: string, value: string)
    ensures m + params[param := value] == (m + params)[param := value]
    ensures m + map[param := value] == m[param := value]
  {
  }

  lemma {:induction false} RunIsOneByOne(values: Values, list: seq<Assignment>, lo: nat, hi: nat)
    requires lo < hi <= |list| && forall j :: lo <= j < hi ==> list[j].path == list[lo].path
    ensures PerformSet(SetOneByOne(values, list, lo), SetCall(list[lo].path, RunParams(list, lo, hi))) ==
            SetOneByOne(values, list, hi)
    decreases hi
  {
    var before := ParamsOf(SetOneByOne(values, list, lo), list[lo].path);
    MergeAdd(before, RunParams(list, lo, hi - 1), list[hi - 1].param, list[hi - 1].value);
    if hi == lo + 1 {
      assert RunParams(list, lo, lo) == map[];
    } else {
      RunIsOneByOne(values, list, lo, hi - 1);
    }
  }

  /** If the bus accepts every call, setting run by run is setting the parameters one by one, in order. */
  lemma {:induction false} GroupedIsOneByOne(values: Values, list: seq<Assignment>, starts: seq<nat>, calls: seq<SetCall>,
                                             answer: nat -> Answer)
    requires OneCallPerRun(list, starts, calls)
    requires forall k: nat :: k < |calls| ==> answer(k).Accepted?
    ensures PerformAccepted(values, calls, answer) == SetOneByOne(values, list, starts[|calls|])
    decreases |calls|
  {
    if calls != [] {
      var n := |calls| - 1;
      FewerCalls(list, starts, calls);
      GroupedIsOneByOne(values, list, starts[..|calls|], calls[..n], answer);
      RunIsOneByOne(values, list, starts[n], starts[n + 1]);
    }
  }

  ghost predicate PlacedOnce(list: seq<Assignment>) {
    forall i, j :: 0 <= i < j < |list| ==> list[i].path != list[j].path || list[i].param != list[j].param
  }

  /** No value is lost in a call: a run has a key for each of its parameters. */
  lemma {:induction false} RunLosesNothing(list: seq<Assignment>, lo: nat, hi: nat)
    requires PlacedOnce(list) && lo <= hi <= |list| && forall j :: lo <= j < hi ==> list[j].path == list[lo].path
    ensures |RunParams(list, lo, hi)| == hi - lo
    ensures forall p :: p in RunParams(list, lo, hi) ==> exists j :: lo <= j < hi && list[j].param == p
    decreases hi
  {
    if lo < hi {
      RunLosesNothing(list, lo, hi - 1);
    }
  }

  /** Names that differ are different places in the data model. */
  lemma PlacesDistinct(list: seq<Parameter>)
    requires NamedOnce(list)
    ensures PlacedOnce(Assignments(list))
  {
    forall i, j | 0 <= i < j < |list|
      ensures Assignments(list)[i].path != Assignments(list)[j].path || Assignments(list)[i].param != Assignments(list)[j].param
    {
      PathIsObjectAndParam(list[i].name.value);
      PathIsObjectAndParam(list[j].name.value);
    }
  }

  /** A place that is set ends up with the value asked for; no other place moves. */
  lemma {:induction false} OneByOneValue(values: Values, list: seq<Assignment>, hi: nat, path: string, param: string)
    requires hi <= |list|
    requires PlacedOnce(list)
    ensures var before, after := ParamsOf(values, path), ParamsOf(SetOneByOne(values, list, hi), path);
            && (forall i :: 0 <= i < hi && list[i].path == path && list[i].param == param ==>
                  param in after && after[param] == list[i].value)
            && ((forall i :: 0 <= i < hi ==> list[i].path != path || list[i].param != param) ==>
                  (param in after <==> param in before) && (param in before ==> after[param] == before[param]))
  {
    if hi > 0 {
      OneByOneValue(values, list, hi - 1, path, param);
    }
  }

  /** After a fully accepted RPC every named parameter has its value and no other parameter has moved. */
  lemma EveryParameterSet(values: Values, list: seq<Assignment>, starts: seq<nat>, calls: seq<SetCall>, answer: nat -> Answer,
                          path: string, param: string)
    requires PlacedOnce(list) && OneCallPerRun(list, starts, calls) && starts[|calls|] == |list|
    requires forall k: nat :: k < |calls| ==> answer(k).Accepted?
    ensures var before, after := ParamsOf(values, path), ParamsOf(PerformAccepted(values, calls, answer), path);
            && (forall i :: 0 <= i < |list| && list[i].path == path && list[i].param == param ==>
                  param in after && after[param] == list[i].value)
            && ((forall i :: 0 <= i < |list| ==> list[i].path != path || list[i].param != param) ==>
                  (param in after <==> param in before) && (param in before ==> after[param] == before[param]))
  {
    GroupedIsOneByOne(values, list, starts, calls, answer);
    OneByOneValue(values, list, |list|, path, param);
  }

  // ----- What becomes of a parameter, however the bus answers -----

  lemma {:induction false} RunParamsFrom(list: seq<Assignment>, lo: nat, hi: nat, param: string) returns (i: nat)
    requires lo <= hi <= |list| && param in RunParams(list, lo, hi)
    ensures lo <= i < hi && list[i].param == param && list[i].value == RunParams(list, lo, hi)[param]
    decreases hi
  {
    i := hi - 1;
    if list[hi - 1].param != param {
      i := RunParamsFrom(list, lo, hi - 1, param);
    }
  }

  lemma {:induction false} RunParamsAt(list: seq<Assignment>, lo: nat, hi: nat, i: nat)
    requires PlacedOnce(list) && lo <= i < hi <= |list| && forall j :: lo <= j < hi ==> list[j].path == list[lo].path
    ensures list[i].param in RunParams(list, lo, hi) && RunParams(list, lo, hi)[list[i].param] == list[i].value
    decreases hi
  {
    if i < hi - 1 {
      RunParamsAt(list, lo, hi - 1, i);
    }
  }

  lemma FewerCalls(list: seq<Assignment>, starts: seq<nat>, calls: seq<SetCall>)
    requires OneCallPerRun(list, starts, calls) && calls != []
    ensures OneCallPerRun(list, starts[..|calls|], calls[..|calls| - 1])
    ensures CallAt(list, starts, calls, |calls| - 1)
  {
    var n := |calls| - 1;
    assert CallAt(list, starts, calls, n);
    forall k | 0 <= k < n
      ensures CallAt(list, starts[..|calls|], calls[..n], k)
    {
      assert CallAt(list, starts, calls, k);
    }
  }

  /** The parameter has the same value in both, or is in neither. */
  predicate SameIn(before: map<string, string>, after: map<string, string>, param: string) {
    (param in after <==> param in before) && (param in before ==> after[param] == before[param])
  }

  /** A parameter that the calls do not name keeps its value, whatever the bus answers. */
  lemma {:induction false} UnnamedStays(values: Values, list: seq<Assignment>, starts: seq<nat>, calls: seq<SetCall>, answer: nat -> Answer,
                                        path: string, param: string)
    requires OneCallPerRun(list, starts, calls)
    requires forall i :: 0 <= i < starts[|calls|] ==> list[i].path != path || list[i].param != param
    ensures SameIn(ParamsOf(values, path), ParamsOf(PerformAccepted(values, calls, answer), path), param)
    decreases |calls|
  {
    if calls != [] {
      var n := |calls| - 1;
      FewerCalls(list, starts, calls);
      UnnamedStays(values, list, starts[..|calls|], calls[..n], answer, path, param);
      if calls[n].path == path && param in calls[n].params {
        var i := RunParamsFrom(list, starts[n], starts[n + 1], param);
        assert false;
      }
    }
  }

  /**
   * A parameter gets the value asked for exactly by the call for its own run: if the bus accepts
   * that call it has the value in the end, and otherwise what it had before the request.
   */
  lemma {:induction false} SetWhereAccepted(values: Values, list: seq<Assignment>, starts: seq<nat>, calls: seq<SetCall>, answer: nat -> Answer,
                                            k: nat, i: nat)
    requires PlacedOnce(list) && OneCallPerRun(list, starts, calls) && k < |calls| && starts[k] <= i < starts[k + 1]
    ensures starts[k + 1] <= |list|
    ensures var before, after := ParamsOf(values, list[i].path), ParamsOf(PerformAccepted(values, calls, answer), list[i].path);
            if answer(k).Accepted? then list[i].param in after && after[list[i].param] == list[i].value
            else SameIn(before, after, list[i].param)
    decreases |calls|
  {
    var n := |calls| - 1;
    FewerCalls(list, starts, calls);
    assert CallAt(list, starts, calls, k);
    if k == n {
      UnnamedStays(values, list, starts[..|calls|], calls[..n], answer, list[i].path, list[i].param);
      RunParamsAt(list, starts[n], starts[n + 1], i);
    } else {
      SetWhereAccepted(values, list, starts[..|calls|], calls[..n], answer, k, i);
      if calls[n].path == list[i].path && list[i].param in calls[n].params {
        var j := RunParamsFrom(list, starts[n], starts[n + 1], list[i].param);
        RunsAscend(list, starts, calls, k + 1, n);
        assert false;
      }
    }
  }

  lemma {:induction false} RunsAscend(list: seq<Assignment>, starts: seq<nat>, calls: seq<SetCall>, j: nat, k: nat)
    requires OneCallPerRun(list, starts, calls) && j <= k <= |calls|
    ensures starts[j] <= starts[k]
  {
    if j < k {
      assert CallAt(list, starts, calls, k - 1);
      RunsAscend(list, starts, calls, j, k - 1);
    }
  }

  /** The faults of a request that was carried out are those of the refused calls, and all of them. */
  lemma {:induction false} RefusalsAreReported(answer: nat -> Answer, n: nat, fault: Fault)
    ensures fault in RefusalFaults(answer, n) <==> exists k: nat :: k < n && answer(k).Refused? && fault in answer(k).faults
  {
    if n > 0 {
      RefusalsAreReported(answer, n - 1, fault);
    }
  }

  // ----- What the verdicts of the validation mean -----

  /** The bus describes the parameter and takes values of its type; it is not read-only, and the access rules allow setting it. */
  ghost predicate Settable(bus: Bus, kind: ParameterType, path: string, param: string) {
    && bus.acceptablePath(path) && bus.describe(path).Some? && param in bus.describe(path).value
    && var d := bus.describe(path).value[param];
       && (bus.checkType ==> kind == d.kind || (bus.acceptUnsignedAsBoolean && kind == UintType && d.kind == BooleanType))
       && !d.readOnly && bus.setAllowed(path, param)
  }

  /** The names are readable, empty or below "Device.", and no two are equal. */
  ghost predicate ProperNames(list: seq<Parameter>) {
    && (forall i :: 0 <= i < |list| ==> list[i].name.Some? && (list[i].name.value == "" || "Device." <= list[i].name.value))
    && (forall i, j :: 0 <= i < j < |list| ==> list[i].name != list[j].name)
  }

  ghost predicate AllSettable(bus: Bus, list: seq<Parameter>) {
    && ProperNames(list)
    && forall i :: 0 <= i < |list| ==> Settable(bus, list[i].kind, ObjectPath(list[i].name.value), ParamName(list[i].name.value))
  }

  /** The code tells the first check that the parameter fails: name, then type, then repetition, then access. */
  ghost predicate Blamed(bus: Bus, list: seq<Parameter>, i: nat, code: Code) {
    && i < |list|
    && var kind, name := list[i].kind, list[i].name;
       if name.None? || (name.value != "" && !("Device." <= name.value)) then code == InvalidParameterName
       else
         var path, param := ObjectPath(name.value), ParamName(name.value);
         if !bus.acceptablePath(path) || bus.describe(path).None? || param !in bus.describe(path).value then code == InvalidParameterName
         else
           var d := bus.describe(path).value[param];
           if bus.checkType && kind != d.kind && !(bus.acceptUnsignedAsBoolean && kind == UintType && d.kind == BooleanType) then
             code == InvalidParameterType
           else if exists j :: 0 <= j < i && list[j].name == name then code == InvalidArguments
           else (d.readOnly || !bus.setAllowed(path, param)) && code == ReadOnlyParameter
  }

  lemma BlamedIffFault(bus: Bus, list: seq<Parameter>, i: nat, code: Code)
    requires i < |list|
    ensures Blamed(bus, list, i, code) <==> FaultAt(bus, list, i) == Some(code)
  {
  }

  /** The faults name the parameters that fail a check, each once, in the order of the request, with the code of that check. */
  ghost predicate Reports(bus: Bus, list: seq<Parameter>, n: nat, faults: seq<Fault>, at: seq<nat>) {
    && |at| == |faults|
    && (forall k :: 0 <= k < |at| ==> at[k] < n <= |list| && faults[k].name == list[at[k]].name && Blamed(bus, list, at[k], faults[k].code))
    && (forall j, k :: 0 <= j < k < |at| ==> at[j] < at[k])
    && (forall i, code :: 0 <= i < n && Blamed(bus, list, i, code) ==> i in at)
  }

  lemma {:induction false} FaultsReport(bus: Bus, list: seq<Parameter>, n: nat) returns (at: seq<nat>)
    requires n <= |list|
    ensures Reports(bus, list, n, Faults(bus, list, 0, n), at)
  {
    at := [];
    if n > 0 {
      var before := FaultsReport(bus, list, n - 1);
      at := before;
      forall code
        ensures Blamed(bus, list, n - 1, code) <==> FaultAt(bus, list, n - 1) == Some(code)
      {
        BlamedIffFault(bus, list, n - 1, code);
      }
      if FaultAt(bus, list, n - 1).Some? {
        at := before + [n - 1];
      }
      assert forall i :: i in before ==> i in at;
    }
  }

  lemma AllValidIffSettable(bus: Bus, list: seq<Parameter>)
    ensures AllValid(bus, list, 0, |list|) <==> AllSettable(bus, list)
  {
    if AllValid(bus, list, 0, |list|) {
      ValidatedNamesDistinct(bus, list);
      forall i | 0 <= i < |list|
        ensures Settable(bus, list[i].kind, ObjectPath(list[i].name.value), ParamName(list[i].name.value))
      {
        assert FaultAt(bus, list, i).None?;
      }
    }
    if AllSettable(bus, list) {
      forall i | 0 <= i < |list|
        ensures FaultAt(bus, list, i).None?
      {
        assert Settable(bus, list[i].kind, ObjectPath(list[i].name.value), ParamName(list[i].name.value));
      }
    }
  }

  /** What a call sets is one of the parameters asked for, with the value asked for, and may be set. */
  ghost predicate Sanctioned(bus: Bus, list: seq<Parameter>, call: SetCall, param: string) {
    && param in call.params
    && exists i :: 0 <= i < |list| && list[i].name == Some(call.path + param) && list[i].value == call.params[param]
                   && Settable(bus, list[i].kind, call.path, param)
  }

  lemma CallIsSanctioned(bus: Bus, list: seq<Parameter>, starts: seq<nat>, calls: seq<SetCall>, k: nat, param: string)
    requires AllSettable(bus, list) && OneCallPerRun(Assignments(list), starts, calls) && k < |calls| && param in calls[k].params
    ensures Sanctioned(bus, list, calls[k], param)
  {
    assert CallAt(Assignments(list), starts, calls, k);
    var i := RunParamsFrom(Assignments(list), starts[k], starts[k + 1], param);
    PathIsObjectAndParam(list[i].name.value);
    assert Assignments(list)[i] == AssignmentOf(list[i]);
  }

  lemma CallsAreSanctioned(bus: Bus, list: seq<Parameter>, starts: seq<nat>, calls: seq<SetCall>)
    requires AllSettable(bus, list) && OneCallPerRun(Assignments(list), starts, calls)
    ensures forall k, param :: 0 <= k < |calls| && param in calls[k].params ==> Sanctioned(bus, list, calls[k], param)
  {
    forall k, param | 0 <= k < |calls| && param in calls[k].params
      ensures Sanctioned(bus, list, calls[k], param)
    {
      CallIsSanctioned(bus, list, starts, calls, k, param);
    }
  }

  /** The bus side of the RPC: the data model and the set calls made so far. */
  class Device {
    var values: Values
    var calls: seq<SetCall>

    /** The loop over the parameters that belong to the same object; `i` is left on the last of them. */
    method CollectRun(list: seq<Parameter>, ghost assignments: seq<Assignment>, start: nat) returns (i: nat, params: map<string, string>)
      requires start < |list| && Named(list) && Splits(list, assignments)
      ensures IsRun(assignments, start, i + 1) && params == RunParams(assignments, start, i + 1)
    {
      i := start;
      var path := list[i].name.value;
      var objectPath := ObjectPath(path);
      params := map[];
      while ObjectPath(path) == objectPath
        invariant start <= i < |list| && list[i].name == Some(path)
        invariant i == start ==> ObjectPath(path) == objectPath
        invariant forall j :: start <= j < i ==> assignments[j].path == objectPath
        invariant params == RunParams(assignments, start, i)
        decreases |list| - i
      {
        assert assignments[i] == Assignment(objectPath, ParamName(path), list[i].value);
        params := params[ParamName(path) := list[i].value];
        i := i + 1;
        if i == |list| {
          break;
        }
        path := list[i].name.value;
        assert assignments[i].path == ObjectPath(path);
      }
      i := i - 1;
    }

    /** Set the parameters of one object, starting at `start`; `i` is the last index set. */
    method SetValues(list: seq<Parameter>, ghost assignments: seq<Assignment>, start: nat, answer: Answer, faults: seq<Fault>)
        returns (i: nat, error: Option<Code>, faults': seq<Fault>)
      requires start < |list| && Named(list) && Splits(list, assignments)
      modifies this
      ensures IsRun(assignments, start, i + 1)
      ensures calls == old(calls) + [SetCall(assignments[start].path, RunParams(assignments, start, i + 1))]
      ensures values == if answer.Accepted? then PerformSet(old(values), calls[|old(calls)|]) else old(values)
      ensures error == if answer.Accepted? then None else Some(InvalidArguments)
      ensures faults' == if answer.Refused? then faults + answer.faults else faults
    {
      var params;
      i, params := CollectRun(list, assignments, start);
      var objectPath := ObjectPath(list[start].name.value);
      error, faults' := None, faults;
      calls := calls + [SetCall(objectPath, params)];
      match answer {
        case Accepted => values := PerformSet(values, SetCall(objectPath, params));
        case Refused(refusals) =>
          faults' := faults' + refusals;
          error := Some(InvalidArguments);
      }
    }

    /** One turn of the application loop: the run that starts at `i` is set with the k-th call. */
    method ApplyNext(list: seq<Parameter>, ghost assignments: seq<Assignment>, i: nat, k: nat, answer: nat -> Answer, faults: seq<Fault>,
                     ghost before: Values, ghost starts: seq<nat>, ghost made: seq<SetCall>)
        returns (i': nat, error: Option<Code>, faults': seq<Fault>, ghost call: SetCall)
      requires Named(list) && Splits(list, assignments) && i < |list|
      requires OneCallPerRun(assignments, starts, made) && k == |made| && i == starts[k]
      requires values == PerformAccepted(before, made, answer) && faults == RefusalFaults(answer, k)
      modifies this
      ensures i < i' && OneCallPerRun(assignments, starts + [i'], made + [call])
      ensures calls == old(calls) + [call] && values == PerformAccepted(before, made + [call], answer)
      ensures error == if answer(k).Accepted? then None else Some(InvalidArguments)
      ensures faults' == RefusalFaults(answer, k + 1)
    {
      i', error, faults' := SetValues(list, assignments, i, answer(k), faults);
      i' := i' + 1;
      call := calls[|calls| - 1];
      NextCall(assignments, starts, made, i');
      assert (made + [call])[..|made|] == made;
    }

    /** The application phase. `answer(k)` is the reply of the bus to the k-th call, `error` the reply to the last one. */
    method ApplyAll(list: seq<Parameter>, ghost assignments: seq<Assignment>, answer: nat -> Answer)
        returns (error: Option<Code>, faults: seq<Fault>, ghost starts: seq<nat>, ghost made: seq<SetCall>)
      requires Named(list) && Splits(list, assignments)
      modifies this
      ensures OneCallPerRun(assignments, starts, made) && starts[|made|] == |list|
      ensures calls == old(calls) + made
      ensures values == PerformAccepted(old(values), made, answer)
      ensures error == if ReportsSuccess(answer, |made|) then None else Some(InvalidArguments)
      ensures faults == RefusalFaults(answer, |made|)
    {
      error, faults, starts, made := None, [], [0], [];
      var i, k := 0, 0;
      while i < |list|
        invariant 0 <= k == |made| && OneCallPerRun(assignments, starts, made) && i == starts[k]
        invariant calls == old(calls) + made
        invariant values == PerformAccepted(old(values), made, answer)
        invariant error == if ReportsSuccess(answer, k) then None else Some(InvalidArguments)
        invariant faults == RefusalFaults(answer, k)
      {
        ghost var call;
        i, error, faults, call := ApplyNext(list, assignments, i, k, answer, faults, old(values), starts, made);
        starts, made := starts + [i], made + [call];
        k := k + 1;
      }
    }

    /**
     * The whole RPC. Nothing is set unless every parameter may be set, and then nothing else; a
     * request that is turned down is told which parameters are at fault, and why.
     */
    method SetParameterValues(connected: bool, bus: Bus, list: seq<Parameter>, answer: nat -> Answer)
        returns (error: Option<Code>, status: Option<Status>, faults: seq<Fault>,
                 ghost starts: seq<nat>, ghost made: seq<SetCall>, ghost at: seq<nat>)
      modifies this
      ensures status.Some? <==> connected && AllSettable(bus, list)
      ensures calls == old(calls) + made && (status.None? ==> made == [])
      ensures forall k, param :: 0 <= k < |made| && param in made[k].params ==> Sanctioned(bus, list, made[k], param)
      ensures connected && status.None? ==> Reports(bus, list, |list|, faults, at)
      ensures !connected ==> error == Some(InternalError) && faults == []
      ensures !connected || !AllValid(bus, list, 0, |list|) ==>
                error.Some? && status.None? && calls == old(calls) && values == old(values)
      ensures connected && !AllValid(bus, list, 0, |list|) ==>
                error == Some(InvalidArguments) && faults == Faults(bus, list, 0, |list|) && faults != []
      ensures connected && AllValid(bus, list, 0, |list|) ==>
                && PlacedOnce(Assignments(list))
                && OneCallPerRun(Assignments(list), starts, made) && starts[|made|] == |list|
                && calls == old(calls) + made
                && values == PerformAccepted(old(values), made, answer)
                && error == (if ReportsSuccess(answer, |made|) then None else Some(InvalidArguments))
                && status == Some(if error.None? then Applied else UndefinedStatus)
                && faults == RefusalFaults(answer, |made|)
    {
      error, status, faults, starts, made, at := Some(InternalError), None, [], [], [], [];
      if !connected {
        return;
      }
      error, faults := ValidateAll(bus, list);
      AllValidIffSettable(bus, list);
      if error.Some? {
        at := FaultsReport(bus, list, |list|);
        return;
      }
      ValidatedNamesDistinct(bus, list);
      PlacesDistinct(list);
      error, faults, starts, made := ApplyAll(list, Assignments(list), answer);
      CallsAreSanctioned(bus, list, starts, made);
      status := Some(if error.None? then Applied else UndefinedStatus);
    }
  }

  // ----- What a return value of 0 is worth -----

  predicate ReportsSuccess(answer: nat -> Answer, n: nat) {
    n == 0 || answer(n - 1).Accepted?
  }

  ghost predicate EverySetAccepted(answer: nat -> Answer, n: nat) {
    forall k: nat :: k < n ==> answer(k).Accepted?
  }

  /** All parameters of the request belong to one object. */
  ghost predicate OneObject(list: seq<Assignment>) {
    forall j :: 0 <= j < |list| ==> list[j].path == list[0].path
  }

  lemma OneCallIffOneObject(list: seq<Assignment>, starts: seq<nat>, calls: seq<SetCall>)
    requires OneCallPerRun(list, starts, calls) && starts[|calls|] == |list|
    ensures |calls| <= 1 <==> OneObject(list)
  {
    if |calls| >= 1 {
      assert CallAt(list, starts, calls, 0);
    }
    if |calls| >= 2 {
      assert CallAt(list, starts, calls, 1);
      assert list[starts[1]].path != list[0].path;
    }
  }

  /** Each run overwrites the result of the one before: with two calls, the refusal of the first is never reported. */
  lemma SuccessIsTruthfulForOneCall(n: nat)
    ensures (forall answer: nat -> Answer :: ReportsSuccess(answer, n) ==> EverySetAccepted(answer, n)) <==> n <= 1
  {
    if n > 1 {
      var answer: nat -> Answer := k => if k == 0 then Refused([]) else Accepted;
      assert ReportsSuccess(answer, n) && !answer(0).Accepted?;
    }
  }

  /**
   * A reported success means, whatever the bus answers, that every parameter was set exactly if
   * the request is about one object only.
   */
  lemma SuccessIsTruthfulIff(list: seq<Assignment>, starts: seq<nat>, calls: seq<SetCall>)
    requires OneCallPerRun(list, starts, calls) && starts[|calls|] == |list|
    ensures (forall answer: nat -> Answer :: ReportsSuccess(answer, |calls|) ==> EverySetAccepted(answer, |calls|)) <==>
            OneObject(list)
  {
    OneCallIffOneObject(list, starts, calls);
    SuccessIsTruthfulForOneCall(|calls|);
  }

  lemma TwoObjectsTwoCalls(v: string)
    ensures var list := [Assignment("Device.A.", "x", v), Assignment("Device.B.", "y", v)];
            var calls := [SetCall("Device.A.", map["x" := v]), SetCall("Device.B.", map["y" := v])];
            OneCallPerRun(list, [0, 1, 2], calls)
  {
    var list := [Assignment("Device.A.", "x", v), Assignment("Device.B.", "y", v)];
    assert "Device.A."[7] != "Device.B."[7];
    assert IsRun(list, 0, 1) && IsRun(list, 1, 2);
    assert RunParams(list, 0, 0) == map[] && RunParams(list, 1, 1) == map[];
  }

  /** Two objects, the first refused: the RPC reports success although a value asked for is not there. */
  lemma RefusedRunGoesUnreported(v: string, answer: nat -> Answer)
    requires answer(0).Refused? && answer(1).Accepted?
    ensures var list := [Assignment("Device.A.", "x", v), Assignment("Device.B.", "y", v)];
            var calls := [SetCall("Device.A.", map["x" := v]), SetCall("Device.B.", map["y" := v])];
            && OneCallPerRun(list, [0, 1, 2], calls) && ReportsSuccess(answer, 2)
            && "Device.A." !in PerformAccepted(map[], calls, answer)
  {
    TwoObjectsTwoCalls(v);
    var calls := [SetCall("Device.A.", map["x" := v]), SetCall("Device.B.", map["y" := v])];
    assert "Device.A."[7] != "Device.B."[7];
    assert calls[..1] == [calls[0]] && calls[..1][..0] == [];
    assert PerformAccepted(map[], calls[..1], answer) == map[];
  }

  // ----- What a failed request leaves behind -----

  /** An object that an accepted call has set keeps its parameters through all later calls. */
  lemma {:induction false} FirstCallStays(values: Values, calls: seq<SetCall>, answer: nat -> Answer)
    requires calls != [] && answer(0).Accepted?
    ensures calls[0].path in PerformAccepted(values, calls, answer)
    decreases |calls|
  {
    var n := |calls| - 1;
    if n == 0 {
      assert PerformAccepted(values, calls[..0], answer) == values;
    } else {
      FirstCallStays(values, calls[..n], answer);
    }
  }

  lemma OneFailedCallLeavesNothing(values: Values, calls: seq<SetCall>, answer: nat -> Answer)
    requires |calls| <= 1 && !ReportsSuccess(answer, |calls|)
    ensures PerformAccepted(values, calls, answer) == values
  {
    assert calls[..0] == [];
  }

  /**
   * A failed request is certain to leave the data model as it was, whatever was in it and whatever
   * the bus answers, exactly if it is about one object only; nothing is ever undone.
   */
  lemma FailureLeavesNothingIff(list: seq<Assignment>, starts: seq<nat>, calls: seq<SetCall>)
    requires OneCallPerRun(list, starts, calls) && starts[|calls|] == |list|
    ensures (forall values: Values, answer: nat -> Answer ::
               !ReportsSuccess(answer, |calls|) ==> PerformAccepted(values, calls, answer) == values) <==> OneObject(list)
  {
    OneCallIffOneObject(list, starts, calls);
    if |calls| <= 1 {
      forall values: Values, answer: nat -> Answer | !ReportsSuccess(answer, |calls|)
        ensures PerformAccepted(values, calls, answer) == values
      {
        OneFailedCallLeavesNothing(values, calls, answer);
      }
    } else {
      var answer: nat -> Answer := k => if k == |calls| - 1 then Refused([]) else Accepted;
      var empty: Values := map[];
      FirstCallStays(empty, calls, answer);
      assert !ReportsSuccess(answer, |calls|) && PerformAccepted(empty, calls, answer) != empty;
    }
  }

  /** Two objects, the second refused: the RPC reports failure, and what was set for the first stays. */
  lemma FailedRequestStaysApplied(v: string, answer: nat -> Answer)
    requires answer(0).Accepted? && answer(1).Refused?
    ensures var list := [Assignment("Device.A.", "x", v), Assignment("Device.B.", "y", v)];
            var calls := [SetCall("Device.A.", map["x" := v]), SetCall("Device.B.", map["y" := v])];
            && OneCallPerRun(list, [0, 1, 2], calls) && !ReportsSuccess(answer, 2)
            && PerformAccepted(map[], calls, answer) == map["Device.A." := map["x" := v]]
  {
    TwoObjectsTwoCalls(v);
    var calls := [SetCall("Device.A.", map["x" := v]), SetCall("Device.B.", map["y" := v])];
    assert calls[..1] == [calls[0]] && calls[..1][..0] == [];
    assert PerformAccepted(map[], calls[..1][..0], answer) == map[];
    assert map[] + map["x" := v] == map["x" := v];
    assert PerformAccepted(map[], calls[..1], answer) == map["Device.A." := map["x" := v]];
  }
}
