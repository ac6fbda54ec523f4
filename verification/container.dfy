/** `DataContainer` of protobix/datacontainer.py: the accumulator that
    collects measurements in one of two modes (`items` or `lld`), ships
    them to the Zabbix server one at a time or as one batch, and reduces
    each acknowledgement to a result.

    The object is modelled as an immutable `State` and every method as a
    function from the state before the call to the state after it, with
    `Err` where the Python raises (a raised exception leaves the object as
    it was at the point of the raise). The transport (`_send_to_zabbix`),
    the socket and the clock are not part of this model: they are
    parameters. */
module Container {
  import opened Wrappers
  import opened Digits
  import opened Json
  import opened AckPattern
  import opened Seqs

  // ---------------------------------------------------------------------
  // State
  // ---------------------------------------------------------------------

  /** The settings read from the agent configuration file, as far as the
      container uses them. */
  datatype AgentConfig = AgentConfig(serverActive: string, serverPort: int, debugLevel: int, logFile: string)

  /** The keyword arguments of the constructor; `None` is Python's `None`. */
  datatype Overrides = Overrides(
    dataType: Option<string>, host: Option<string>, port: Option<int>,
    logLevel: Option<int>, logOutput: Option<string>, dryrun: bool)

  /** One measurement record `{host, key, value, clock}`. */
  datatype Item = Item(host: string, key: string, value: Value, clock: int)

  /** One entry of the result log: the four strings captured from the
      server's acknowledgement, or the placeholder `['d', 'd', str(n)]`
      used when the server gave no answer. */
  datatype Ack = Reported(counts: Counts) | Placeholder(n: nat)

  /** The object: agent settings, the dry-run flag, the mode, the pending
      list and the result log. */
  datatype State = State(
    zbx: AgentConfig, dryrun: bool, dataType: Option<Mode>,
    items: seq<Item>, results: seq<Ack>)

  /** The exceptions the methods raise. */
  datatype Fault =
    | BadDataType    // ValueError from the `data_type` setter
    | NoDataType     // ValueError from `add_item` without a usable mode
    | TransportFault // whatever `_send_to_zabbix` raises
    | NotSuccess     // UnboundLocalError: `result` is never assigned
    | NoInfo         // TypeError: `re.findall` applied to a missing `info`
    | NoMatch        // IndexError: `re.findall(...)[0]` of an empty list

  predicate TruthyText(o: Option<string>)
  {
    o.Some? && |o.value| > 0
  }

  predicate TruthyInt(o: Option<int>)
  {
    o.Some? && o.value != 0
  }

  /** The value of `data_type`: one of the two modes `add_item` knows, or
      any other name, which only the constructor stores. */
  datatype Mode = Items | Lld | Other(name: string)

  function ModeName(m: Mode): string
  {
    match m
    case Items => "items"
    case Lld => "lld"
    case Other(name) => name
  }

  /** The mode a `data_type` string names. */
  function ModeOf(s: string): (m: Mode)
    ensures ModeName(m) == s
    ensures m.Other? <==> s != "items" && s != "lld"
  {
    if s == "items" then Items else if s == "lld" then Lld else Other(s)
  }

  /** A mode `add_item` can use. */
  predicate KnownMode(m: Option<Mode>)
  {
    m.Some? && !m.value.Other?
  }

  // ---------------------------------------------------------------------
  // Construction
  // ---------------------------------------------------------------------

  /** `DataContainer(...)`: the file's settings, each replaced by its
      override only when the override is truthy (the log file whenever it
      is not `None`); the mode is stored without being checked. */
  method Init(file: AgentConfig, o: Overrides) returns (st: State)
    ensures st.items == [] && st.results == [] && st.dryrun == o.dryrun
    ensures st.zbx.debugLevel == if TruthyInt(o.logLevel) then o.logLevel.value else file.debugLevel
    ensures st.zbx.logFile == if o.logOutput.Some? then o.logOutput.value else file.logFile
    ensures st.zbx.serverActive == if TruthyText(o.host) then o.host.value else file.serverActive
    ensures st.zbx.serverPort == if TruthyInt(o.port) then o.port.value else file.serverPort
    ensures st.dataType.Some? <==> TruthyText(o.dataType)
    ensures st.dataType.Some? ==> ModeName(st.dataType.value) == o.dataType.value
    ensures st.dataType.Some? ==> st.dataType.value == ModeOf(o.dataType.value)
    ensures KnownMode(st.dataType) <==> o.dataType == Some("items") || o.dataType == Some("lld")
  {
    var zbx := file;
    var dataType: Option<Mode> := None;
    if TruthyInt(o.logLevel) {
      zbx := zbx.(debugLevel := o.logLevel.value);
    }
    if o.logOutput.Some? {
      zbx := zbx.(logFile := o.logOutput.value);
    }
    if TruthyText(o.host) {
      zbx := zbx.(serverActive := o.host.value);
    }
    if TruthyInt(o.port) {
      zbx := zbx.(serverPort := o.port.value);
    }
    if TruthyText(o.dataType) {
      dataType := Some(ModeOf(o.dataType.value));
    }
    st := State(zbx, o.dryrun, dataType, [], []);
  }

  // ---------------------------------------------------------------------
  // Mode
  // ---------------------------------------------------------------------

  /** The `data_type` setter: `items` and `lld` are stored and empty the
      pending list and the result log; anything else raises and changes
      nothing. */
  function SetDataType(st: State, value: string): (r: Result<State, Fault>)
    ensures r.Ok? <==> value == "items" || value == "lld"
    ensures r.Ok? ==> KnownMode(r.value.dataType) && ModeName(r.value.dataType.value) == value
    ensures r.Ok? ==> r.value.items == [] && r.value.results == []
                      && r.value.zbx == st.zbx && r.value.dryrun == st.dryrun
    ensures r.Err? ==> r.error == BadDataType
  {
    match ModeOf(value)
    case Other(_) => Err(BadDataType)
    case m => Ok(st.(dataType := Some(m), items := [], results := []))
  }

  // ---------------------------------------------------------------------
  // Adding measurements
  // ---------------------------------------------------------------------

  /** The record `add_item` builds in mode `mode`: the value as given for
      `items`, the text of `{"data": value}` for `lld`. */
  function MakeItem(mode: Mode, host: string, key: string, value: Value, clock: int): (r: Item)
    ensures r.host == host && r.key == key && r.clock == clock
    ensures mode == Items ==> r.value == value
    ensures mode == Lld ==> r.value == Str(WrapData(value))
  {
    if mode == Items then Item(host, key, value, clock)
    else Item(host, key, Str(WrapData(value)), clock)
  }

  /** `add_item(host, key, value, clock)`; `now` is the reading of the
      container's clock, used when `clock` is `None`. */
  function AddItem(st: State, host: string, key: string, value: Value, clock: Option<int>, now: int)
    : (r: Result<State, Fault>)
    ensures r.Ok? <==> KnownMode(st.dataType)
    ensures r.Err? ==> r.error == NoDataType
    ensures r.Ok? ==> r.value == st.(items := r.value.items)
    ensures r.Ok? ==> |r.value.items| == |st.items| + 1 && r.value.items[..|st.items|] == st.items
    ensures r.Ok? ==> var it := r.value.items[|st.items|];
      it.host == host && it.key == key && it.clock == (if clock.Some? then clock.value else now)
    ensures r.Ok? && st.dataType == Some(Items) ==> r.value.items[|st.items|].value == value
    ensures r.Ok? && st.dataType == Some(Lld) ==>
      r.value.items[|st.items|].value == Str(WrapData(value))
      && UnwrapData(r.value.items[|st.items|].value.s) == Some(value)
  {
    var c := if clock.Some? then clock.value else now;
    if KnownMode(st.dataType) then
      UnwrapWrapData(value);
      var items := st.items + [MakeItem(st.dataType.value, host, key, value, c)];
      assert items[..|st.items|] == st.items;
      Ok(st.(items := items))
    else
      Err(NoDataType)
  }

  /** The argument of `add`: for each host in order, its keys and values
      in order. */
  type Bulk = seq<(string, seq<(string, Value)>)>

  /** `data[host][key] == []`: the only values `add` skips. */
  predicate EmptyList(v: Value)
  {
    v == List([])
  }

  /** `add(data)`: `add_item(host, key, value)` for every host and key in
      turn, skipping empty lists. `now(i)` is the clock reading taken for
      the item that lands at position `i` of the pending list. */
  function Add(st: State, data: Bulk, now: nat -> int): (r: Result<State, Fault>)
    ensures r == AddOutcome(st, Selected(data), now)
    ensures r.Err? ==> r.error == NoDataType
  {
    AddOutcomeOfSelected(st, data, now);
    AddHosts(st, data, now)
  }

  function AddHosts(st: State, data: Bulk, now: nat -> int): Result<State, Fault>
    decreases |data|
  {
    if |data| == 0 then Ok(st)
    else
      match AddKeys(st, data[0].0, data[0].1, now)
      case Err(e) => Err(e)
      case Ok(st') => AddHosts(st', data[1..], now)
  }

  function AddKeys(st: State, host: string, kvs: seq<(string, Value)>, now: nat -> int): Result<State, Fault>
    decreases |kvs|
  {
    if |kvs| == 0 then Ok(st)
    else if EmptyList(kvs[0].1) then AddKeys(st, host, kvs[1..], now)
    else
      match AddItem(st, host, kvs[0].0, kvs[0].1, None, now(|st.items|))
      case Err(e) => Err(e)
      case Ok(st') => AddKeys(st', host, kvs[1..], now)
  }

  /** The (host, key, value) triples `add` passes on, in order: every entry
      of `data` whose value is not an empty list. */
  function Selected(data: Bulk): seq<(string, string, Value)>
    decreases |data|
  {
    if |data| == 0 then [] else SelectedKeys(data[0].0, data[0].1) + Selected(data[1..])
  }

  function SelectedKeys(host: string, kvs: seq<(string, Value)>): seq<(string, string, Value)>
    decreases |kvs|
  {
    if |kvs| == 0 then []
    else (if EmptyList(kvs[0].1) then [] else [(host, kvs[0].0, kvs[0].1)]) + SelectedKeys(host, kvs[1..])
  }

  /** The records made from `ts` in mode `mode`, the first landing at
      position `at` of the pending list. */
  function MakeItems(mode: Mode, ts: seq<(string, string, Value)>, at: nat, now: nat -> int): (r: seq<Item>)
    ensures |r| == |ts|
  {
    seq(|ts|, i requires 0 <= i < |ts| => MakeItem(mode, ts[i].0, ts[i].1, ts[i].2, now(at + i)))
  }

  /** What `add` does to the pending list, described by the triples it
      selects. */
  ghost function AddOutcome(st: State, ts: seq<(string, string, Value)>, now: nat -> int): Result<State, Fault>
  {
    if |ts| == 0 then Ok(st)
    else if !KnownMode(st.dataType) then Err(NoDataType)
    else Ok(st.(items := st.items + MakeItems(st.dataType.value, ts, |st.items|, now)))
  }

  // ---------------------------------------------------------------------
  // Reducing an answer
  // ---------------------------------------------------------------------

  /** What `_send_to_zabbix` hands back: a falsy value, or a dictionary
      with its `response` and `info` entries (`None` when absent). */
  datatype Answer = Falsy | Mapping(response: Option<string>, info: Option<string>)

  /** `_handle_response(zbx_answer, output)`: no answer gives the
      placeholder counting one item in debug mode (level 4 and up) and the
      whole pending list otherwise; a successful answer gives the four
      strings of the leftmost acknowledgement in its `info`; anything else
      raises. */
  function HandleResponse(st: State, answer: Answer): (r: Result<Ack, Fault>)
    ensures answer.Falsy? ==> r.Ok? && r.value.Placeholder?
    ensures r.Ok? && r.value.Placeholder? ==> r.value.n == if st.zbx.debugLevel >= 4 then 1 else |st.items|
    ensures answer.Mapping? && answer.response != Some("success") ==> r == Err(NotSuccess)
    ensures answer.Mapping? && answer.response == Some("success") && answer.info.None? ==> r == Err(NoInfo)
    ensures r.Ok? && r.value.Placeholder? <==> answer.Falsy?
    ensures r.Ok? && r.value.Reported? ==> WellFormed(r.value.counts)
  {
    var n := if st.zbx.debugLevel >= 4 then 1 else |st.items|;
    match answer
    case Falsy => Ok(Placeholder(n))
    case Mapping(response, info) =>
      if response != Some("success") then Err(NotSuccess)
      else if info.None? then Err(NoInfo)
      else
        match Search(info.value)
        case None => Err(NoMatch)
        case Some(c) => SearchWellFormed(info.value); Ok(Reported(c))
  }

  /** The Python value of a result log entry: the four captured strings,
      or `['d', 'd', str(n)]`. */
  function AckStrings(a: Ack): (r: seq<string>)
    ensures a.Reported? ==> r == Groups(a.counts)
    ensures a.Placeholder? ==> |r| == 3 && r[0] == "d" && r[1] == "d"
                               && IsDigitRun(r[2]) && DecimalValue(r[2]) == a.n
                               && (|r[2]| > 1 ==> r[2][0] != '0')
  {
    match a
    case Reported(c) => [c.processed, c.failed, c.total, c.seconds]
    case Placeholder(n) => ValueOfNatText(n); ["d", "d", NatText(n)]
  }

  /** The value `_handle_response` returns for a successful answer is the
      tuple of groups of the leftmost match in its `info`. */
  lemma ReportedStrings(st: State, info: string)
    requires HandleResponse(st, Mapping(Some("success"), Some(info))).Ok?
    ensures var a := HandleResponse(st, Mapping(Some("success"), Some(info))).value;
      exists i, c :: 0 <= i <= |info| && MatchesAt(info, i, c) && AckStrings(a) == Groups(c)
                     && forall j, c' :: 0 <= j < i ==> !MatchesAt(info, j, c')
  {
    HandleResponseSuccess(st, info);
  }

  /** Different entries have different Python values. */
  lemma AckStringsInjective(a: Ack, b: Ack)
    requires AckStrings(a) == AckStrings(b)
    ensures a == b
  {
    if a.Placeholder? && b.Placeholder? {
      NatTextInjective(a.n, b.n);
    }
  }

  /** What `Search` finds is well formed. */
  lemma SearchWellFormed(s: string)
    requires Search(s).Some?
    ensures WellFormed(Search(s).value)
  {
    var i := SearchFound(s);
    PatternNamed();
  }

  // ---------------------------------------------------------------------
  // Sending
  // ---------------------------------------------------------------------

  /** What is handed to the transport: one record (debug mode) or the
      whole pending list. */
  datatype Payload = One(item: Item) | Batch(items: seq<Item>)

  /** The transport's behaviour on one call: it raises or returns. */
  datatype Reply = Raised | Returned(answer: Answer)

  /** The `k`-th call of the transport (from 0) with payload `p`. */
  type Transport = (nat, Payload) -> Reply

  /** What one `send` did: the state after it, the payloads handed to the
      transport in order, whether the socket was closed, and the exception
      it raised, if any. */
  datatype Sent = Sent(state: State, payloads: seq<Payload>, closed: bool, fault: Option<Fault>)

  /** The exception the `k`-th transmission, of `p`, ends in: the
      transport raises, or its answer does not reduce. */
  function Failure(st: State, tr: Transport, k: nat, p: Payload): Option<Fault>
  {
    match tr(k, p)
    case Raised => Some(TransportFault)
    case Returned(a) => if HandleResponse(st, a).Err? then Some(HandleResponse(st, a).error) else None
  }

  /** The debug-mode loop from item `k` on: the payloads handed over, the
      results appended, and the exception that stopped it, if any. */
  function SendEach(st: State, k: nat, tr: Transport): (r: (seq<Payload>, seq<Ack>, Option<Fault>))
    requires k <= |st.items|
    ensures |r.0| <= |st.items| - k
    ensures r.2.None? ==> |r.0| == |st.items| - k && |r.1| == |r.0|
    ensures r.2.Some? ==> |r.0| == |r.1| + 1
    decreases |st.items| - k
  {
    if k == |st.items| then ([], [], None)
    else
      var p := One(st.items[k]);
      match tr(k, p)
      case Raised => ([p], [], Some(TransportFault))
      case Returned(a) =>
        match HandleResponse(st, a)
        case Err(e) => ([p], [], Some(e))
        case Ok(ack) =>
          var rest := SendEach(st, k + 1, tr);
          ([p] + rest.0, [ack] + rest.1, rest.2)
  }

  /** The `k`-th transmission, of `p`, returned an answer that reduces to
      `ack`. */
  ghost predicate Answered(st: State, tr: Transport, k: nat, p: Payload, ack: Ack)
  {
    tr(k, p).Returned? && HandleResponse(st, tr(k, p).answer) == Ok(ack)
  }

  /** The single transmission of the whole pending list. */
  function SendBatch(st: State, tr: Transport): (r: (seq<Payload>, seq<Ack>, Option<Fault>))
    ensures r.0 == [Batch(st.items)] && r.2 == Failure(st, tr, 0, Batch(st.items))
    ensures |r.1| == if r.2.None? then 1 else 0
    ensures r.2.None? ==> Answered(st, tr, 0, Batch(st.items), r.1[0])
  {
    var p := Batch(st.items);
    match tr(0, p)
    case Raised => ([p], [], Some(TransportFault))
    case Returned(a) =>
      match HandleResponse(st, a)
      case Err(e) => ([p], [], Some(e))
      case Ok(ack) => ([p], [ack], None)
  }

  /** The transmissions of `send`, one per item at debug level 4 and up
      and one of the whole list otherwise, end in an exception exactly
      when one of them does, and then in the exception of the last. */
  lemma TransmitFault(st: State, tr: Transport)
    ensures var r := if st.zbx.debugLevel >= 4 then SendEach(st, 0, tr) else SendBatch(st, tr);
      (r.2.None? <==> AllReduce(st, tr, 0, r.0))
      && (r.2.Some? ==> |r.0| > 0 && r.2 == Failure(st, tr, |r.0| - 1, r.0[|r.0| - 1]))
  {
    if st.zbx.debugLevel >= 4 {
      SendEachFault(st, 0, tr);
      SendEachLastFault(st, 0, tr);
    } else {
      AllReduceCons(st, tr, 0, Batch(st.items), []);
      assert [Batch(st.items)] + [] == [Batch(st.items)];
    }
  }

  /** `send()`: the result log is emptied, then the items go out one at a
      time at debug level 4 and up and together otherwise. When every
      answer reduces, the pending list is emptied, the mode unset and the
      socket closed unless in dry-run mode; an exception leaves the pending
      list, the mode and the socket as they were. */
  function Send(st: State, tr: Transport): (s: Sent)
    ensures s.state.zbx == st.zbx && s.state.dryrun == st.dryrun
    ensures s.fault.None? ==> s.state.items == [] && s.state.dataType == None && s.closed == !st.dryrun
    ensures s.fault.Some? ==> s.state.items == st.items && s.state.dataType == st.dataType && !s.closed
    ensures st.zbx.debugLevel >= 4 ==>
      |s.payloads| <= |st.items| && forall i :: 0 <= i < |s.payloads| ==> s.payloads[i] == One(st.items[i])
    ensures st.zbx.debugLevel >= 4 && s.fault.None? ==> |s.payloads| == |s.state.results| == |st.items|
    ensures st.zbx.debugLevel < 4 ==> s.payloads == [Batch(st.items)]
    ensures st.zbx.debugLevel < 4 ==> |s.state.results| == if s.fault.None? then 1 else 0
    ensures s.fault.Some? ==> |s.payloads| == |s.state.results| + 1
    ensures forall i :: 0 <= i < |s.state.results| ==>
      i < |s.payloads| && Answered(st, tr, i, s.payloads[i], s.state.results[i])
    ensures s.fault.None? <==> forall i :: 0 <= i < |s.payloads| ==> Failure(st, tr, i, s.payloads[i]).None?
    ensures s.fault.Some? ==> s.fault == Failure(st, tr, |s.payloads| - 1, s.payloads[|s.payloads| - 1])
  {
    SendEachLog(st, 0, tr);
    TransmitFault(st, tr);
    var r := if st.zbx.debugLevel >= 4 then SendEach(st, 0, tr) else SendBatch(st, tr);
    var st' := st.(results := r.1);
    if r.2.Some? then Sent(st', r.0, false, r.2)
    else Sent(st'.(items := [], dataType := None), r.0, !st.dryrun, None)
  }

  /** `ps` are the items from position `k` on, one per payload, and each
      of `acks` is the reduction of the answer to the payload at the same
      position. */
  ghost predicate Logged(st: State, tr: Transport, k: nat, ps: seq<Payload>, acks: seq<Ack>)
  {
    k + |ps| <= |st.items| && |acks| <= |ps| && Singles(st, k, ps) && Reductions(st, tr, k, ps, acks)
  }

  ghost predicate Singles(st: State, k: nat, ps: seq<Payload>)
    requires k + |ps| <= |st.items|
  {
    forall i :: 0 <= i < |ps| ==> ps[i] == One(st.items[k + i])
  }

  ghost predicate Reductions(st: State, tr: Transport, k: nat, ps: seq<Payload>, acks: seq<Ack>)
    requires |acks| <= |ps|
  {
    Pairwise(AnswerCheck(st, tr), k, ps, acks)
  }

  ghost function AnswerCheck(st: State, tr: Transport): (nat, Payload, Ack) -> bool
  {
    (j: nat, p: Payload, ack: Ack) => Answered(st, tr, j, p, ack)
  }

  /** `ok` holds of each of `acks` with the payload at the same position,
      positions counted from `k`. */
  ghost predicate Pairwise<P, A>(ok: (nat, P, A) -> bool, k: nat, ps: seq<P>, acks: seq<A>)
    requires |acks| <= |ps|
  {
    forall i :: 0 <= i < |acks| ==> ok(k + i, ps[i], acks[i])
  }

  lemma PairwiseCons<P, A>(ok: (nat, P, A) -> bool, k: nat, p: P, ps: seq<P>, a: A, acks: seq<A>)
    requires |acks| <= |ps| && Pairwise(ok, k + 1, ps, acks) && ok(k, p, a)
    ensures Pairwise(ok, k, [p] + ps, [a] + acks)
  {
    var ps', acks' := [p] + ps, [a] + acks;
    forall i | 0 < i < |acks'|
      ensures ok(k + i, ps'[i], acks'[i])
    {
      assert ps'[i] == ps[i - 1] && acks'[i] == acks[i - 1];
      assert ok((k + 1) + (i - 1), ps[i - 1], acks[i - 1]);
    }
  }

  lemma SinglesCons(st: State, k: nat, ps: seq<Payload>)
    requires k + 1 + |ps| <= |st.items| && Singles(st, k + 1, ps)
    ensures Singles(st, k, [One(st.items[k])] + ps)
  {
    var ps' := [One(st.items[k])] + ps;
    forall i | 0 < i < |ps'|
      ensures ps'[i] == One(st.items[k + i])
    {
      assert ps'[i] == ps[i - 1];
    }
  }

  lemma LoggedCons(st: State, tr: Transport, k: nat, ps: seq<Payload>, acks: seq<Ack>, ack: Ack)
    requires k < |st.items| && Logged(st, tr, k + 1, ps, acks)
    requires Answered(st, tr, k, One(st.items[k]), ack)
    ensures Logged(st, tr, k, [One(st.items[k])] + ps, [ack] + acks)
  {
    SinglesCons(st, k, ps);
    assert AnswerCheck(st, tr)(k, One(st.items[k]), ack);
    PairwiseCons(AnswerCheck(st, tr), k, One(st.items[k]), ps, ack, acks);
  }

  /** The debug-mode loop hands over the items in order, one per call,
      and logs the reduction of each answer in the same order. */
  lemma {:induction false} SendEachLog(st: State, k: nat, tr: Transport)
    requires k <= |st.items|
    ensures Logged(st, tr, k, SendEach(st, k, tr).0, SendEach(st, k, tr).1)
    decreases |st.items| - k
  {
    if k < |st.items| {
      var p := One(st.items[k]);
      if tr(k, p).Returned? && HandleResponse(st, tr(k, p).answer).Ok? {
        var rest := SendEach(st, k + 1, tr);
        SendEachLog(st, k + 1, tr);
        LoggedCons(st, tr, k, rest.0, rest.1, HandleResponse(st, tr(k, p).answer).value);
      }
    }
  }

  /** Every transmission of `ps`, counted from `k`, returned an answer
      that reduces. */
  ghost predicate AllReduce(st: State, tr: Transport, k: nat, ps: seq<Payload>)
  {
    forall i :: 0 <= i < |ps| ==> Failure(st, tr, k + i, ps[i]).None?
  }

  /** The debug-mode loop stops early exactly when a transmission raises
      or its answer does not reduce, and then with the exception of its
      last transmission. */
  lemma AllReduceCons(st: State, tr: Transport, k: nat, p: Payload, ps: seq<Payload>)
    ensures AllReduce(st, tr, k, [p] + ps) <==> Failure(st, tr, k, p).None? && AllReduce(st, tr, k + 1, ps)
  {
    var ps' := [p] + ps;
    assert ps'[0] == p;
    if Failure(st, tr, k, p).None? && AllReduce(st, tr, k + 1, ps) {
      forall i | 0 < i < |ps'|
        ensures Failure(st, tr, k + i, ps'[i]).None?
      {
        assert ps'[i] == ps[i - 1];
        assert Failure(st, tr, (k + 1) + (i - 1), ps[i - 1]).None?;
      }
    }
    if AllReduce(st, tr, k, ps') {
      forall i | 0 <= i < |ps|
        ensures Failure(st, tr, k + 1 + i, ps[i]).None?
      {
        assert ps'[i + 1] == ps[i];
        assert Failure(st, tr, k + (i + 1), ps'[i + 1]).None?;
      }
    }
  }

  /** The debug-mode loop stops early exactly when a transmission raises
      or its answer does not reduce. */
  lemma {:induction false} SendEachFault(st: State, k: nat, tr: Transport)
    requires k <= |st.items|
    ensures SendEach(st, k, tr).2.None? <==> AllReduce(st, tr, k, SendEach(st, k, tr).0)
    decreases |st.items| - k
  {
    if k < |st.items| {
      var p := One(st.items[k]);
      var r := SendEach(st, k, tr);
      SendEachStep(st, k, tr);
      if Failure(st, tr, k, p).None? {
        var rest := SendEach(st, k + 1, tr);
        SendEachFault(st, k + 1, tr);
        AllReduceCons(st, tr, k, p, rest.0);
      } else {
        assert r.0 == [p] + [];
        AllReduceCons(st, tr, k, p, []);
      }
    }
  }

  /** One round of the debug-mode loop, told by `Failure`. */
  lemma SendEachStep(st: State, k: nat, tr: Transport)
    requires k < |st.items|
    ensures var p := One(st.items[k]);
      var r := SendEach(st, k, tr);
      if Failure(st, tr, k, p).Some? then r.0 == [p] && r.2 == Failure(st, tr, k, p)
      else r.0 == [p] + SendEach(st, k + 1, tr).0 && r.2 == SendEach(st, k + 1, tr).2
  {
  }

  /** When the debug-mode loop stops early, it is with the exception of
      its last transmission. */
  lemma {:induction false} SendEachLastFault(st: State, k: nat, tr: Transport)
    requires k <= |st.items|
    ensures var r := SendEach(st, k, tr);
      r.2.Some? ==> |r.0| > 0 && r.2 == Failure(st, tr, k + |r.0| - 1, r.0[|r.0| - 1])
    decreases |st.items| - k
  {
    if k < |st.items| {
      var p := One(st.items[k]);
      var r := SendEach(st, k, tr);
      SendEachStep(st, k, tr);
      if Failure(st, tr, k, p).None? {
        var rest := SendEach(st, k + 1, tr);
        SendEachLastFault(st, k + 1, tr);
        if r.2.Some? {
          assert r.0[|r.0| - 1] == rest.0[|rest.0| - 1];
        }
      }
    }
  }

  // ---------------------------------------------------------------------
  // Properties of `add`
  // ---------------------------------------------------------------------

  lemma MakeItemsConcat(mode: Mode, a: seq<(string, string, Value)>, b: seq<(string, string, Value)>,
                         at: nat, now: nat -> int)
    ensures MakeItems(mode, a + b, at, now) == MakeItems(mode, a, at, now) + MakeItems(mode, b, at + |a|, now)
  {
    var l := MakeItems(mode, a + b, at, now);
    var r := MakeItems(mode, a, at, now) + MakeItems(mode, b, at + |a|, now);
    forall i | 0 <= i < |l|
      ensures l[i] == r[i]
    {
      if i < |a| {
        assert (a + b)[i] == a[i] && r[i] == MakeItems(mode, a, at, now)[i];
      } else {
        assert (a + b)[i] == b[i - |a|] && r[i] == MakeItems(mode, b, at + |a|, now)[i - |a|];
      }
    }
  }

  /** Adding `a` and then `b` is adding `a + b`. */
  lemma AddOutcomeConcat(st: State, a: seq<(string, string, Value)>, b: seq<(string, string, Value)>, now: nat -> int)
    ensures AddOutcome(st, a + b, now) ==
      match AddOutcome(st, a, now)
      case Err(e) => Err(e)
      case Ok(st') => AddOutcome(st', b, now)
  {
    if |a| == 0 {
      assert a + b == b;
    } else if |b| == 0 {
      assert a + b == a;
    } else if KnownMode(st.dataType) {
      var m := st.dataType.value;
      MakeItemsConcat(m, a, b, |st.items|, now);
      Regroup3(st.items, MakeItems(m, a, |st.items|, now), MakeItems(m, b, |st.items| + |a|, now));
    }
  }

  lemma {:induction false} AddKeysOutcome(st: State, host: string, kvs: seq<(string, Value)>, now: nat -> int)
    ensures AddKeys(st, host, kvs, now) == AddOutcome(st, SelectedKeys(host, kvs), now)
    decreases |kvs|
  {
    if |kvs| > 0 {
      var t := [(host, kvs[0].0, kvs[0].1)];
      var rest := SelectedKeys(host, kvs[1..]);
      if EmptyList(kvs[0].1) {
        assert SelectedKeys(host, kvs) == rest;
        AddKeysOutcome(st, host, kvs[1..], now);
      } else {
        assert SelectedKeys(host, kvs) == t + rest;
        AddOutcomeConcat(st, t, rest, now);
        if KnownMode(st.dataType) {
          var st' := AddItem(st, host, kvs[0].0, kvs[0].1, None, now(|st.items|)).value;
          assert MakeItems(st.dataType.value, t, |st.items|, now)
              == [MakeItem(st.dataType.value, host, kvs[0].0, kvs[0].1, now(|st.items|))];
          assert AddOutcome(st, t, now) == Ok(st');
          AddKeysOutcome(st', host, kvs[1..], now);
        }
      }
    }
  }

  /** `add` is `add_item` applied to exactly the selected triples, in
      order: nothing when nothing is selected, the error of the first
      `add_item` when the mode is unusable, and otherwise the pending list
      extended by one record per triple. */
  lemma {:induction false} AddOutcomeOfSelected(st: State, data: Bulk, now: nat -> int)
    ensures AddHosts(st, data, now) == AddOutcome(st, Selected(data), now)
    decreases |data|
  {
    if |data| > 0 {
      AddKeysOutcome(st, data[0].0, data[0].1, now);
      AddOutcomeConcat(st, SelectedKeys(data[0].0, data[0].1), Selected(data[1..]), now);
      match AddKeys(st, data[0].0, data[0].1, now)
      case Err(e) =>
      case Ok(st') => AddOutcomeOfSelected(st', data[1..], now);
    }
  }

  lemma {:induction false} SelectedKeysMembers(host: string, kvs: seq<(string, Value)>, t: (string, string, Value))
    ensures t in SelectedKeys(host, kvs) <==>
      exists j :: 0 <= j < |kvs| && t == (host, kvs[j].0, kvs[j].1) && !EmptyList(kvs[j].1)
    decreases |kvs|
  {
    if |kvs| > 0 {
      SelectedKeysMembers(host, kvs[1..], t);
      if t in SelectedKeys(host, kvs[1..]) {
        var j :| 0 <= j < |kvs[1..]| && t == (host, kvs[1..][j].0, kvs[1..][j].1) && !EmptyList(kvs[1..][j].1);
        assert kvs[1..][j] == kvs[j + 1];
      }
      if exists j :: 0 <= j < |kvs| && t == (host, kvs[j].0, kvs[j].1) && !EmptyList(kvs[j].1) {
        var j :| 0 <= j < |kvs| && t == (host, kvs[j].0, kvs[j].1) && !EmptyList(kvs[j].1);
        if j > 0 {
          assert kvs[1..][j - 1] == kvs[j];
        }
      }
    }
  }

  /** A triple is passed on exactly when it is an entry of `data` whose
      value is not an empty list. */
  lemma {:induction false} SelectedMembers(data: Bulk, t: (string, string, Value))
    ensures t in Selected(data) <==>
      exists i, j :: 0 <= i < |data| && 0 <= j < |data[i].1|
        && t == (data[i].0, data[i].1[j].0, data[i].1[j].1) && !EmptyList(data[i].1[j].1)
    decreases |data|
  {
    if |data| > 0 {
      SelectedKeysMembers(data[0].0, data[0].1, t);
      SelectedMembers(data[1..], t);
      if t in Selected(data[1..]) {
        var i, j :| 0 <= i < |data[1..]| && 0 <= j < |data[1..][i].1|
          && t == (data[1..][i].0, data[1..][i].1[j].0, data[1..][i].1[j].1) && !EmptyList(data[1..][i].1[j].1);
        assert data[1..][i] == data[i + 1];
      }
      if exists i, j :: 0 <= i < |data| && 0 <= j < |data[i].1|
           && t == (data[i].0, data[i].1[j].0, data[i].1[j].1) && !EmptyList(data[i].1[j].1) {
        var i, j :| 0 <= i < |data| && 0 <= j < |data[i].1|
          && t == (data[i].0, data[i].1[j].0, data[i].1[j].1) && !EmptyList(data[i].1[j].1);
        if i > 0 {
          assert data[1..][i - 1] == data[i];
        }
      }
    }
  }

  /** Only empty lists are skipped: an empty string and zero are added. */
  lemma FalsyValuesKept()
    ensures Selected([("h", [("a", Str("")), ("b", Int(0)), ("c", List([]))])])
      == [("h", "a", Str("")), ("h", "b", Int(0))]
  {
    var kvs := [("a", Str("")), ("b", Int(0)), ("c", List([]))];
    assert SelectedKeys("h", kvs[2..]) == [];
    assert SelectedKeys("h", kvs[1..]) == [("h", "b", Int(0))];
  }

  /** In a usable mode `add` never fails and extends the pending list by
      the records made from the selected triples. */
  lemma AddExtends(st: State, data: Bulk, now: nat -> int)
    requires KnownMode(st.dataType)
    ensures Add(st, data, now)
      == Ok(st.(items := st.items + MakeItems(st.dataType.value, Selected(data), |st.items|, now)))
  {
    AddOutcomeOfSelected(st, data, now);
    if |Selected(data)| == 0 {
      assert st.items + MakeItems(st.dataType.value, Selected(data), |st.items|, now) == st.items;
    }
  }

  // ---------------------------------------------------------------------
  // The `lld` invariant
  // ---------------------------------------------------------------------

  /** The text of a `{"data": ...}` document. */
  predicate LldValue(v: Value)
  {
    v.Str? && UnwrapData(v.s).Some?
  }

  /** In `lld` mode every pending value is a wrapped document. */
  ghost predicate Consistent(st: State)
  {
    st.dataType == Some(Lld) ==> AllLld(st.items)
  }

  ghost predicate AllLld(items: seq<Item>)
  {
    forall i :: 0 <= i < |items| ==> LldValue(items[i].value)
  }

  lemma AppendLld(xs: seq<Item>, ys: seq<Item>)
    requires AllLld(xs) && AllLld(ys)
    ensures AllLld(xs + ys)
  {
    forall i | 0 <= i < |xs + ys|
      ensures LldValue((xs + ys)[i].value)
    {
      if i >= |xs| {
        assert (xs + ys)[i] == ys[i - |xs|];
      }
    }
  }

  /** `add` keeps the pending list consistent with the mode. */
  lemma AddKeepsConsistent(st: State, data: Bulk, now: nat -> int)
    requires Consistent(st) && Add(st, data, now).Ok?
    ensures Consistent(Add(st, data, now).value)
  {
    if st.dataType == Some(Lld) {
      var made := MakeItems(Lld, Selected(data), |st.items|, now);
      AddExtends(st, data, now);
      MadeLld(Selected(data), |st.items|, now);
      AppendLld(st.items, made);
    } else {
      AddOutcomeOfSelected(st, data, now);
    }
  }

  /** Records made in `lld` mode hold wrapped documents. */
  lemma MadeLld(ts: seq<(string, string, Value)>, at: nat, now: nat -> int)
    ensures AllLld(MakeItems(Lld, ts, at, now))
  {
    forall k | 0 <= k < |ts|
      ensures LldValue(MakeItems(Lld, ts, at, now)[k].value)
    {
      var it := MakeItems(Lld, ts, at, now)[k];
      assert it == MakeItem(Lld, ts[k].0, ts[k].1, ts[k].2, now(at + k));
      MakeItemLld(ts[k].0, ts[k].1, ts[k].2, now(at + k));
    }
  }

  lemma MakeItemLld(host: string, key: string, value: Value, clock: int)
    ensures LldValue(MakeItem(Lld, host, key, value, clock).value)
  {
    UnwrapWrapData(value);
  }

  /** The setter and `send` keep it without effort: the setter empties
      the pending list, and `send` either unsets the mode or, when it
      raises, leaves the pending list and the mode as they were. */
  lemma ResetsKeepConsistent(st: State, tr: Transport, mode: string)
    requires Consistent(st)
    ensures SetDataType(st, mode).Ok? ==> Consistent(SetDataType(st, mode).value)
    ensures Consistent(Send(st, tr).state)
  {
  }

  /** `add_item` keeps it. */
  lemma AddItemKeepsConsistent(st: State, host: string, key: string, value: Value, clock: Option<int>, now: int)
    requires Consistent(st)
    ensures AddItem(st, host, key, value, clock, now).Ok? ==> Consistent(AddItem(st, host, key, value, clock, now).value)
  {
    if AddItem(st, host, key, value, clock, now).Ok? && st.dataType == Some(Lld) {
      var items := AddItem(st, host, key, value, clock, now).value.items;
      var n := |st.items|;
      assert items == items[..n] + [items[n]];
      assert AllLld([items[n]]);
      AppendLld(st.items, [items[n]]);
    }
  }

  // ---------------------------------------------------------------------
  // Properties of `_handle_response`
  // ---------------------------------------------------------------------

  /** A successful answer reduces exactly when its `info` holds an
      acknowledgement somewhere. */
  lemma HandleResponseReduces(st: State, info: string)
    ensures var r := HandleResponse(st, Mapping(Some("success"), Some(info)));
      r.Ok? <==> exists i, c :: 0 <= i <= |info| && MatchesAt(info, i, c)
  {
    SearchLeftmost(info);
  }

  /** A successful answer reduces to the leftmost acknowledgement in its
      `info`, and raises IndexError exactly when `info` holds none. */
  lemma HandleResponseSuccess(st: State, info: string)
    ensures var r := HandleResponse(st, Mapping(Some("success"), Some(info)));
      r.Ok? ==> r.value.Reported?
                && exists i :: 0 <= i <= |info| && MatchesAt(info, i, r.value.counts)
                               && forall j, c :: 0 <= j < i ==> !MatchesAt(info, j, c)
    ensures var r := HandleResponse(st, Mapping(Some("success"), Some(info)));
      r == Err(NoMatch) <==> forall i, c :: 0 <= i <= |info| ==> !MatchesAt(info, i, c)
  {
    SearchLeftmost(info);
  }

  /** Any acknowledgement the server writes, in either spelling, reduces
      to the four strings it carries. */
  lemma HandleAcknowledgement(st: State, c: Counts, sps: seq<Spelling>)
    requires WellFormed(c) && |sps| == |PATTERN|
    ensures HandleResponse(st, Mapping(Some("success"), Some(AckText(c, sps)))) == Ok(Reported(c))
  {
    SearchAckText(c, sps);
  }

  /** The answer of a Zabbix 2.0 server. */
  lemma HandleZabbix20(st: State)
    ensures HandleResponse(st, Mapping(Some("success"),
              Some("Processed 0 " + "Failed 1 " + "Total 1 " + "Seconds spent 0.000057")))
      == Ok(Reported(Counts("0", "1", "1", "0.000057")))
  {
    Zabbix20Acknowledgement();
  }

  /** The answer of a Zabbix 2.2 server. */
  lemma HandleZabbix22(st: State)
    ensures HandleResponse(st, Mapping(Some("success"),
              Some("processed: 50; " + "failed: 1000; " + "total: 1050; " + "seconds spent: 0.09957")))
      == Ok(Reported(Counts("50", "1000", "1050", "0.09957")))
  {
    Zabbix22Acknowledgement();
  }

  // ---------------------------------------------------------------------
  // A whole round
  // ---------------------------------------------------------------------

  /** Two measurements and an empty list for host `web1`, added in `items`
      mode outside debug mode and sent to a server that gives no answer:
      one transmission of the two records, one placeholder result counting
      two, and an empty container afterwards. */
  lemma Web1Round(st: State, now: nat -> int)
    requires st.dataType == Some(Items) && st.items == [] && st.zbx.debugLevel == 0
    ensures var data := [("web1", [("cpu.load", Int(2)), ("mem.free", Int(1024)), ("disk.io", List([]))])];
      var added := Add(st, data, now);
      added.Ok?
      && added.value.items == [Item("web1", "cpu.load", Int(2), now(0)), Item("web1", "mem.free", Int(1024), now(1))]
      && var sent := Send(added.value, (k: nat, p: Payload) => Returned(Falsy));
         sent.payloads == [Batch(added.value.items)] && sent.state.results == [Placeholder(2)]
         && sent.state.items == [] && sent.state.dataType == None && sent.fault == None
  {
    var data := [("web1", [("cpu.load", Int(2)), ("mem.free", Int(1024)), ("disk.io", List([]))])];
    var ts := [("web1", "cpu.load", Int(2)), ("web1", "mem.free", Int(1024))];
    assert SelectedKeys("web1", data[0].1[2..]) == [];
    assert SelectedKeys("web1", data[0].1) == ts;
    assert Selected(data) == ts;
    AddOutcomeOfSelected(st, data, now);
  }
}
