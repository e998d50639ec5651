/** collector/rabbitmq.go and checker/rabbitmq.go: from decoded queues to warnings, and from there,
    through notify/signature.go, to the identity of the alert. */
module RabbitMQ {
  import opened Alerts
  import opened Model
  import opened Persistence
  import opened Signatures
  import opened Strings

  /** A queue as the management API reports it. */
  datatype Queue = Queue(vhost: string, name: string, messages: int, consumers: int, durable: bool)

  datatype QueueInfo = QueueInfo(
    vhost: string, queue: string, messageCount: int, consumers: int, durable: bool,
    messageStatus: CheckStatus, consumerStatus: CheckStatus)

  datatype VHostSummary = VHostSummary(vhost: string, queues: int, messages: int, consumers: int)

  datatype NodeAlarm = NodeAlarm(
    node: string, memAlarm: bool, diskFreeAlarm: bool, memStatus: CheckStatus, diskFreeStatus: CheckStatus)

  const UNSET := Other("")

  class RabbitMQStatus {
    var error: string
    var queuesError: string
    var clusterPartition: bool
    var abnormalConnections: int
    var nodeAlarms: seq<NodeAlarm>
    var vhostSummary: seq<VHostSummary>
    var exceedingQueues: seq<QueueInfo>
    var noConsumerQueues: seq<QueueInfo>
    var partitionStatus: CheckStatus
    var abnormalConnStatus: CheckStatus

    constructor ()
      ensures error == "" && queuesError == "" && !clusterPartition && abnormalConnections == 0
      ensures nodeAlarms == [] && vhostSummary == [] && exceedingQueues == [] && noConsumerQueues == []
    {
      error, queuesError, clusterPartition, abnormalConnections := "", "", false, 0;
      nodeAlarms, vhostSummary, exceedingQueues, noConsumerQueues := [], [], [], [];
      partitionStatus, abnormalConnStatus := UNSET, UNSET;
    }
  }

  // ---- the collector's loop ----

  function Filter<T>(s: seq<T>, keep: T -> bool): seq<T> {
    if s == [] then []
    else Filter(s[..|s| - 1], keep) + (if keep(s[|s| - 1]) then [s[|s| - 1]] else [])
  }

  function Sum<T>(s: seq<T>, f: T -> int): int {
    if s == [] then 0 else Sum(s[..|s| - 1], f) + f(s[|s| - 1])
  }

  const ONE: Queue -> int := (q: Queue) => 1
  const MESSAGES: Queue -> int := (q: Queue) => q.messages
  const CONSUMERS: Queue -> int := (q: Queue) => q.consumers

  predicate Kept(q: Queue) {
    !(q.vhost == "bk_usermgr" || HasPrefix(q.name, "celeryev"))
  }

  function IsKept(): Queue -> bool { q => Kept(q) }

  function InVHost(kept: Queue -> bool, v: string): Queue -> bool { q => kept(q) && q.vhost == v }

  function Exceeds(threshold: int): Queue -> bool { q => Kept(q) && q.messages >= threshold }

  function LacksConsumer(blacklist: set<string>): Queue -> bool {
    q => Kept(q) && q.consumers == 0 && q.messages > 0 && q.vhost !in blacklist
  }

  function Info(q: Queue): QueueInfo {
    QueueInfo(q.vhost, q.name, q.messages, q.consumers, q.durable, UNSET, UNSET)
  }

  function Infos(s: seq<Queue>): (r: seq<QueueInfo>)
    ensures |r| == |s|
  {
    seq(|s|, i requires 0 <= i < |s| => Info(s[i]))
  }

  function VHosts(kept: Queue -> bool, queues: seq<Queue>): set<string> {
    set q | q in queues && kept(q) :: q.vhost
  }

  function VHostNames(kept: Queue -> bool, queues: seq<Queue>): seq<string> {
    if queues == [] then []
    else
      var last := queues[|queues| - 1];
      VHostNames(kept, queues[..|queues| - 1]) + (if kept(last) then [last.vhost] else [])
  }

  /** `q` counted into a row. */
  function Added(r: VHostSummary, q: Queue): VHostSummary {
    VHostSummary(r.vhost, r.queues + 1, r.messages + q.messages, r.consumers + q.consumers)
  }

  /** The summary row of one vhost, counted queue by queue. */
  function Row(kept: Queue -> bool, queues: seq<Queue>, v: string): (r: VHostSummary)
    ensures r.vhost == v
  {
    if queues == [] then VHostSummary(v, 0, 0, 0)
    else
      var before, last := Row(kept, queues[..|queues| - 1], v), queues[|queues| - 1];
      if kept(last) && last.vhost == v then Added(before, last) else before
  }

  function Table(kept: Queue -> bool, queues: seq<Queue>): map<string, VHostSummary> {
    map v | v in VHosts(kept, queues) :: Row(kept, queues, v)
  }

  /** The rows of the given vhosts, in that order. */
  function Rows(kept: Queue -> bool, queues: seq<Queue>, vhosts: seq<string>): (r: seq<VHostSummary>)
    ensures |r| == |vhosts|
  {
    seq(|vhosts|, i requires 0 <= i < |vhosts| => Row(kept, queues, vhosts[i]))
  }

  /** The vhost table of the report. */
  function Summary(kept: Queue -> bool, queues: seq<Queue>): seq<VHostSummary> {
    Rows(kept, queues, Sorted(VHostNames(kept, queues)))
  }

  lemma {:induction false} NamesAreVHosts(kept: Queue -> bool, queues: seq<Queue>)
    ensures Elements(VHostNames(kept, queues)) == VHosts(kept, queues)
  {
    if queues != [] {
      var before, last := queues[..|queues| - 1], queues[|queues| - 1];
      NamesAreVHosts(kept, before);
      assert queues == before + [last];
      VHostsStep(kept, before, last);
      var here := if kept(last) then [last.vhost] else [];
      assert Elements(VHostNames(kept, before) + here) == Elements(VHostNames(kept, before)) + Elements(here);
    }
  }

  lemma FilterStep<T>(s: seq<T>, x: T, keep: T -> bool)
    ensures Filter(s + [x], keep) == Filter(s, keep) + (if keep(x) then [x] else [])
  {
    assert (s + [x])[..|s|] == s;
  }

  lemma SumStep<T>(s: seq<T>, x: T, f: T -> int)
    ensures Sum(s + [x], f) == Sum(s, f) + f(x)
  {
    assert (s + [x])[..|s|] == s;
  }

  lemma VHostsStep(kept: Queue -> bool, queues: seq<Queue>, q: Queue)
    ensures VHosts(kept, queues + [q]) == VHosts(kept, queues) + (if kept(q) then {q.vhost} else {})
  {
    assert forall x :: x in queues + [q] <==> x in queues || x == q;
  }

  lemma FilteredSumStep<T>(s: seq<T>, x: T, keep: T -> bool, f: T -> int)
    ensures Sum(Filter(s + [x], keep), f) == Sum(Filter(s, keep), f) + (if keep(x) then f(x) else 0)
  {
    FilterStep(s, x, keep);
    SumStep(Filter(s, keep), x, f);
    assert Filter(s, keep) + [] == Filter(s, keep);
  }

  /** The total of `f` over the kept queues of one vhost. */
  function OwnSum(kept: Queue -> bool, queues: seq<Queue>, v: string, f: Queue -> int): int {
    Sum(Filter(queues, InVHost(kept, v)), f)
  }

  lemma OwnSumStep(kept: Queue -> bool, queues: seq<Queue>, q: Queue, v: string, f: Queue -> int)
    ensures OwnSum(kept, queues + [q], v, f)
         == OwnSum(kept, queues, v, f) + (if kept(q) && q.vhost == v then f(q) else 0)
  {
    FilteredSumStep(queues, q, InVHost(kept, v), f);
  }

  /** The row of a vhost starts at zero; one more kept queue adds itself to the row of its own vhost, and
      changes no other row. */
  lemma RowCountsItsQueues(kept: Queue -> bool, queues: seq<Queue>, q: Queue, v: string)
    ensures Row(kept, [], v) == VHostSummary(v, 0, 0, 0)
    ensures var r := Row(kept, queues, v);
            Row(kept, queues + [q], v)
            == if kept(q) && q.vhost == v
               then VHostSummary(v, r.queues + 1, r.messages + q.messages, r.consumers + q.consumers) else r
  {
    RowStep(kept, queues, q, v);
  }

  lemma RowStep(kept: Queue -> bool, queues: seq<Queue>, q: Queue, v: string)
    ensures Row(kept, queues + [q], v)
         == if kept(q) && q.vhost == v then Added(Row(kept, queues, v), q) else Row(kept, queues, v)
  {
    assert (queues + [q])[..|queues|] == queues;
  }

  lemma {:induction false} NoQueuesOfUnknownVHost(kept: Queue -> bool, queues: seq<Queue>, v: string)
    requires v !in VHosts(kept, queues)
    ensures Row(kept, queues, v) == VHostSummary(v, 0, 0, 0)
  {
    if queues != [] {
      var n := |queues| - 1;
      assert queues == queues[..n] + [queues[n]];
      VHostsStep(kept, queues[..n], queues[n]);
      NoQueuesOfUnknownVHost(kept, queues[..n], v);
      RowStep(kept, queues[..n], queues[n], v);
    }
  }

  lemma MapIsUpdate<K, V>(a: map<K, V>, b: map<K, V>, k: K, x: V)
    requires b.Keys == a.Keys + {k} && b[k] == x
    requires forall v :: v in a && v != k ==> b[v] == a[v]
    ensures b == a[k := x]
  {
  }

  lemma TableKeys(kept: Queue -> bool, queues: seq<Queue>)
    ensures Table(kept, queues).Keys == VHosts(kept, queues)
    ensures forall v :: v in VHosts(kept, queues) ==> Table(kept, queues)[v] == Row(kept, queues, v)
  {
  }

  /** The table after one more kept queue, ... */
  lemma TableStep(kept: Queue -> bool, queues: seq<Queue>, q: Queue)
    requires kept(q)
    ensures Table(kept, queues + [q]) == Table(kept, queues)[q.vhost := Added(Row(kept, queues, q.vhost), q)]
  {
    var before, after := Table(kept, queues), Table(kept, queues + [q]);
    VHostsStep(kept, queues, q);
    TableKeys(kept, queues);
    TableKeys(kept, queues + [q]);
    forall v | v in VHosts(kept, queues + [q])
      ensures after[v] == if v == q.vhost then Added(Row(kept, queues, v), q) else Row(kept, queues, v)
    {
      RowStep(kept, queues, q, v);
    }
    assert q.vhost in VHosts(kept, queues + [q]);
    MapIsUpdate(before, after, q.vhost, Added(Row(kept, queues, q.vhost), q));
  }

  /** ... and after one that is skipped. */
  lemma TableSkips(kept: Queue -> bool, queues: seq<Queue>, q: Queue)
    requires !kept(q)
    ensures Table(kept, queues + [q]) == Table(kept, queues)
  {
    VHostsStep(kept, queues, q);
    TableKeys(kept, queues);
    TableKeys(kept, queues + [q]);
    forall v | v in VHosts(kept, queues)
      ensures Table(kept, queues + [q])[v] == Row(kept, queues, v)
    {
      RowStep(kept, queues, q, v);
    }
    MapsAgree(Table(kept, queues), Table(kept, queues + [q]));
  }

  lemma MapsAgree<K, V>(a: map<K, V>, b: map<K, V>)
    requires a.Keys == b.Keys && forall k :: k in a ==> a[k] == b[k]
    ensures a == b
  {
  }

  /** `q` counted into the row of its vhost, which starts at zero. */
  function Counted(table: map<string, VHostSummary>, q: Queue): map<string, VHostSummary> {
    table[q.vhost := Added(if q.vhost in table then table[q.vhost] else VHostSummary(q.vhost, 0, 0, 0), q)]
  }

  /** Counting queue by queue builds the table. */
  lemma CountingBuildsTheTable(kept: Queue -> bool, queues: seq<Queue>, q: Queue)
    ensures Table(kept, queues + [q]) == if kept(q) then Counted(Table(kept, queues), q) else Table(kept, queues)
  {
    TableKeys(kept, queues);
    if kept(q) {
      TableStep(kept, queues, q);
      if q.vhost !in VHosts(kept, queues) {
        NoQueuesOfUnknownVHost(kept, queues, q.vhost);
      }
    } else {
      TableSkips(kept, queues, q);
    }
  }

  lemma InfosStep(s: seq<Queue>, q: Queue)
    ensures Infos(s + [q]) == Infos(s) + [Info(q)]
  {
  }

  lemma ListsStep(queues: seq<Queue>, q: Queue, keep: Queue -> bool)
    ensures Infos(Filter(queues + [q], keep)) == Infos(Filter(queues, keep)) + (if keep(q) then [Info(q)] else [])
  {
    FilterStep(queues, q, keep);
    var before := Filter(queues, keep);
    if keep(q) {
      InfosStep(before, q);
    } else {
      assert before + [] == before && Infos(before) + [] == Infos(before);
    }
  }

  function Pick(table: map<string, VHostSummary>, vhosts: seq<string>): (r: seq<VHostSummary>)
    requires forall v :: v in vhosts ==> v in table
  {
    seq(|vhosts|, i requires 0 <= i < |vhosts| => table[vhosts[i]])
  }

  lemma PickIsRows(kept: Queue -> bool, queues: seq<Queue>, vhosts: seq<string>)
    requires Elements(vhosts) == VHosts(kept, queues)
    ensures forall v :: v in vhosts ==> v in Table(kept, queues)
    ensures Pick(Table(kept, queues), vhosts) == Rows(kept, queues, vhosts)
  {
    TableKeys(kept, queues);
    assert forall v :: v in vhosts ==> v in Elements(vhosts);
  }

  /** Reading the table in the order of its sorted keys gives the summary. */
  lemma SummaryOfTable(kept: Queue -> bool, queues: seq<Queue>, keys: seq<string>)
    requires Elements(keys) == Table(kept, queues).Keys
    ensures forall v :: v in Sorted(keys) ==> v in Table(kept, queues)
    ensures Pick(Table(kept, queues), Sorted(keys)) == Summary(kept, queues)
  {
    NamesAreVHosts(kept, queues);
    TableKeys(kept, queues);
    SortedForgetsOrder(keys, VHostNames(kept, queues));
    PickIsRows(kept, queues, Sorted(keys));
  }

  method AppendRows(status: RabbitMQStatus, summaryByVHost: map<string, VHostSummary>, vhosts: seq<string>)
    requires forall v :: v in vhosts ==> v in summaryByVHost
    modifies status`vhostSummary
    ensures status.vhostSummary == old(status.vhostSummary) + Pick(summaryByVHost, vhosts)
  {
    ghost var before := status.vhostSummary;
    for i := 0 to |vhosts|
      invariant status.vhostSummary == before + Pick(summaryByVHost, vhosts[..i])
    {
      assert vhosts[i] in vhosts;
      assert Pick(summaryByVHost, vhosts[..i + 1]) == Pick(summaryByVHost, vhosts[..i]) + [summaryByVHost[vhosts[i]]];
      status.vhostSummary := status.vhostSummary + [summaryByVHost[vhosts[i]]];
    }
    assert vhosts[..|vhosts|] == vhosts;
  }

  method CollectQueues(status: RabbitMQStatus, queues: seq<Queue>, threshold: int, blacklist: set<string>)
    returns (summaryByVHost: map<string, VHostSummary>)
    modifies status`exceedingQueues, status`noConsumerQueues
    ensures summaryByVHost == Table(IsKept(), queues)
    ensures status.exceedingQueues == old(status.exceedingQueues) + Infos(Filter(queues, Exceeds(threshold)))
    ensures status.noConsumerQueues == old(status.noConsumerQueues) + Infos(Filter(queues, LacksConsumer(blacklist)))
  {
    summaryByVHost := map[];
    ghost var exceeding, lacking := status.exceedingQueues, status.noConsumerQueues;
    for i := 0 to |queues|
      invariant summaryByVHost == Table(IsKept(), queues[..i])
      invariant status.exceedingQueues == exceeding + Infos(Filter(queues[..i], Exceeds(threshold)))
      invariant status.noConsumerQueues == lacking + Infos(Filter(queues[..i], LacksConsumer(blacklist)))
    {
      assert queues[..i + 1] == queues[..i] + [queues[i]];
      ListsStep(queues[..i], queues[i], Exceeds(threshold));
      ListsStep(queues[..i], queues[i], LacksConsumer(blacklist));
      CountingBuildsTheTable(IsKept(), queues[..i], queues[i]);
      summaryByVHost := CollectQueue(status, queues[i], summaryByVHost, threshold, blacklist);
    }
    assert queues[..|queues|] == queues;
  }

  /** The body of the loop. */
  method CollectQueue(
      status: RabbitMQStatus, q: Queue, table: map<string, VHostSummary>, threshold: int, blacklist: set<string>)
    returns (summaryByVHost: map<string, VHostSummary>)
    modifies status`exceedingQueues, status`noConsumerQueues
    ensures summaryByVHost == if Kept(q) then Counted(table, q) else table
    ensures status.exceedingQueues == old(status.exceedingQueues) + (if Exceeds(threshold)(q) then [Info(q)] else [])
    ensures status.noConsumerQueues
         == old(status.noConsumerQueues) + (if LacksConsumer(blacklist)(q) then [Info(q)] else [])
  {
    if q.vhost == "bk_usermgr" || HasPrefix(q.name, "celeryev") {
      return table;
    }
    summaryByVHost := table;
    var agg := VHostSummary(q.vhost, 0, 0, 0);
    if q.vhost in summaryByVHost {
      agg := summaryByVHost[q.vhost];
    }
    agg := agg.(queues := agg.queues + 1);
    agg := agg.(messages := agg.messages + q.messages);
    agg := agg.(consumers := agg.consumers + q.consumers);
    summaryByVHost := summaryByVHost[q.vhost := agg];
    var queueInfo := QueueInfo(q.vhost, q.name, q.messages, q.consumers, q.durable, UNSET, UNSET);
    if q.messages >= threshold {
      status.exceedingQueues := status.exceedingQueues + [queueInfo];
    }
    if q.consumers == 0 && q.messages > 0 && q.vhost !in blacklist {
      status.noConsumerQueues := status.noConsumerQueues + [queueInfo];
    }
  }

  // ---- conservation ----

  /** The column `f` of the summary, added up over the given vhosts. */
  function Column(kept: Queue -> bool, queues: seq<Queue>, vhosts: seq<string>, f: Queue -> int): int {
    if vhosts == [] then 0
    else Column(kept, queues, vhosts[..|vhosts| - 1], f) + OwnSum(kept, queues, vhosts[|vhosts| - 1], f)
  }

  predicate Distinct(vhosts: seq<string>) {
    forall i, j :: 0 <= i < j < |vhosts| ==> vhosts[i] != vhosts[j]
  }

  lemma SortedIsDistinct(vhosts: seq<string>)
    requires StrictlySorted(vhosts)
    ensures Distinct(vhosts)
  {
    forall i, j | 0 <= i < j < |vhosts|
      ensures vhosts[i] != vhosts[j]
    {
      LessIsIrreflexive(vhosts[i]);
    }
  }

  lemma ListedOnce(vhosts: seq<string>, x: string)
    requires Distinct(vhosts) && vhosts != []
    ensures var rest, last := vhosts[..|vhosts| - 1], vhosts[|vhosts| - 1];
            && Distinct(rest)
            && (x in vhosts <==> x in rest || x == last)
            && !(x in rest && x == last)
  {
    assert vhosts == vhosts[..|vhosts| - 1] + [vhosts[|vhosts| - 1]];
  }

  /** One more queue adds its amount to the column once if its vhost is listed, and else nothing. */
  lemma {:induction false} ColumnStep(
      kept: Queue -> bool, queues: seq<Queue>, q: Queue, vhosts: seq<string>, f: Queue -> int)
    requires Distinct(vhosts)
    ensures Column(kept, queues + [q], vhosts, f)
         == Column(kept, queues, vhosts, f) + (if kept(q) && q.vhost in vhosts then f(q) else 0)
  {
    if vhosts != [] {
      ListedOnce(vhosts, q.vhost);
      ColumnStep(kept, queues, q, vhosts[..|vhosts| - 1], f);
      OwnSumStep(kept, queues, q, vhosts[|vhosts| - 1], f);
    }
  }

  /** Nothing is lost and nothing is counted twice: each column of the summary adds up to the total over
      the kept queues. */
  lemma {:induction false} SummaryConserves(
      kept: Queue -> bool, queues: seq<Queue>, vhosts: seq<string>, f: Queue -> int)
    requires StrictlySorted(vhosts) && VHosts(kept, queues) <= Elements(vhosts)
    ensures Column(kept, queues, vhosts, f) == Sum(Filter(queues, kept), f)
  {
    if queues == [] {
      EmptyColumn(kept, vhosts, f);
    } else {
      var n := |queues| - 1;
      var q := queues[n];
      assert queues == queues[..n] + [q];
      VHostsStep(kept, queues[..n], q);
      SummaryConserves(kept, queues[..n], vhosts, f);
      SortedIsDistinct(vhosts);
      ColumnStep(kept, queues[..n], q, vhosts, f);
      FilteredSumStep(queues[..n], q, kept, f);
    }
  }

  lemma {:induction false} EmptyColumn(kept: Queue -> bool, vhosts: seq<string>, f: Queue -> int)
    ensures Column(kept, [], vhosts, f) == 0
  {
    if vhosts != [] {
      EmptyColumn(kept, vhosts[..|vhosts| - 1], f);
    }
  }

  const ROW_QUEUES: VHostSummary -> int := (r: VHostSummary) => r.queues
  const ROW_MESSAGES: VHostSummary -> int := (r: VHostSummary) => r.messages
  const ROW_CONSUMERS: VHostSummary -> int := (r: VHostSummary) => r.consumers

  /** The field of a row that counts `f`: nothing at first, then one queue's amount at a time. */
  ghost predicate Counts(field: VHostSummary -> int, f: Queue -> int) {
    && (forall v :: field(VHostSummary(v, 0, 0, 0)) == 0)
    && (forall r, q {:trigger Added(r, q)} :: field(Added(r, q)) == field(r) + f(q))
  }

  lemma EmptyRow(kept: Queue -> bool, queues: seq<Queue>, v: string, field: VHostSummary -> int, f: Queue -> int)
    requires Counts(field, f) && queues == []
    ensures field(Row(kept, queues, v)) == OwnSum(kept, queues, v, f) == 0
  {
  }

  lemma RowTotalStep(
      kept: Queue -> bool, queues: seq<Queue>, q: Queue, v: string, field: VHostSummary -> int, f: Queue -> int)
    requires Counts(field, f) && field(Row(kept, queues, v)) == OwnSum(kept, queues, v, f)
    ensures field(Row(kept, queues + [q], v)) == OwnSum(kept, queues + [q], v, f)
  {
    RowStep(kept, queues, q, v);
    OwnSumStep(kept, queues, q, v, f);
    var r := Added(Row(kept, queues, v), q);
  }

  /** A row's field is the total over the kept queues of its vhost. */
  lemma {:induction false} RowIsTotal(
      kept: Queue -> bool, queues: seq<Queue>, v: string, field: VHostSummary -> int, f: Queue -> int)
    requires Counts(field, f)
    ensures field(Row(kept, queues, v)) == OwnSum(kept, queues, v, f)
  {
    if queues == [] {
      EmptyRow(kept, queues, v, field, f);
    } else {
      var before, last := queues[..|queues| - 1], queues[|queues| - 1];
      RowIsTotal(kept, before, v, field, f);
      RowTotalStep(kept, before, last, v, field, f);
      assert queues == before + [last];
    }
  }

  lemma {:induction false} RowsAddUp(
      kept: Queue -> bool, queues: seq<Queue>, vhosts: seq<string>, field: VHostSummary -> int, f: Queue -> int)
    requires Counts(field, f)
    ensures Sum(Rows(kept, queues, vhosts), field) == Column(kept, queues, vhosts, f)
  {
    if vhosts != [] {
      var n := |vhosts| - 1;
      RowsAddUp(kept, queues, vhosts[..n], field, f);
      RowIsTotal(kept, queues, vhosts[n], field, f);
      assert Rows(kept, queues, vhosts)[..n] == Rows(kept, queues, vhosts[..n]);
    }
  }

  /** Column by column: the rows' own totals, and their sum over the table. */
  lemma ColumnConserves(kept: Queue -> bool, queues: seq<Queue>, field: VHostSummary -> int, f: Queue -> int)
    requires Counts(field, f)
    ensures var rows := Summary(kept, queues);
            && (forall i :: 0 <= i < |rows| ==> field(rows[i]) == OwnSum(kept, queues, rows[i].vhost, f))
            && Sum(rows, field) == Sum(Filter(queues, kept), f)
  {
    var vhosts := Sorted(VHostNames(kept, queues));
    NamesAreVHosts(kept, queues);
    RowsAddUp(kept, queues, vhosts, field, f);
    SummaryConserves(kept, queues, vhosts, f);
    var rows := Summary(kept, queues);
    forall i | 0 <= i < |rows|
      ensures field(rows[i]) == OwnSum(kept, queues, rows[i].vhost, f)
    {
      RowIsTotal(kept, queues, vhosts[i], field, f);
    }
  }

  lemma {:induction false} SumOfOnes(s: seq<Queue>)
    ensures Sum(s, ONE) == |s|
  {
    if s != [] {
      SumOfOnes(s[..|s| - 1]);
    }
  }

  lemma {:induction false} SumSame<T(!new)>(s: seq<T>, f: T -> int, g: T -> int)
    requires forall x :: f(x) == g(x)
    ensures Sum(s, f) == Sum(s, g)
  {
    if s != [] {
      SumSame(s[..|s| - 1], f, g);
    }
  }

  /** A row says how many queues there are, and how many messages and consumers they have. */
  predicate IsTotal(r: VHostSummary, own: seq<Queue>) {
    && r.queues == |own|
    && r.messages == Sum(own, (q: Queue) => q.messages)
    && r.consumers == Sum(own, (q: Queue) => q.consumers)
  }

  lemma RowOfTotals(r: VHostSummary, own: seq<Queue>)
    requires r.queues == Sum(own, ONE) && r.messages == Sum(own, MESSAGES) && r.consumers == Sum(own, CONSUMERS)
    ensures IsTotal(r, own)
  {
    SumOfOnes(own);
    SumSame(own, MESSAGES, (q: Queue) => q.messages);
    SumSame(own, CONSUMERS, (q: Queue) => q.consumers);
  }

  /** The vhost table of the report: one row per kept vhost, strictly sorted, each row the totals of its
      own queues, and the three columns adding up to the totals over all kept queues, whichever queues
      are kept. `AggregateQueues` keeps those that `IsKept` picks. */
  lemma TableConserves(kept: Queue -> bool, queues: seq<Queue>)
    ensures var rows, all := Summary(kept, queues), Filter(queues, kept);
            && OneRowEach(rows, VHosts(kept, queues))
            && (forall i :: 0 <= i < |rows| ==> IsTotal(rows[i], Filter(queues, InVHost(kept, rows[i].vhost))))
            && Sum(rows, (r: VHostSummary) => r.queues) == |all|
            && Sum(rows, (r: VHostSummary) => r.messages) == Sum(all, (q: Queue) => q.messages)
            && Sum(rows, (r: VHostSummary) => r.consumers) == Sum(all, (q: Queue) => q.consumers)
  {
    NamesAreVHosts(kept, queues);
    RowsListVHosts(kept, queues, Sorted(VHostNames(kept, queues)));
    RowsAreTotals(kept, queues);
    ColumnsAddUp(kept, queues);
  }

  lemma RowsAreTotals(kept: Queue -> bool, queues: seq<Queue>)
    ensures var rows := Summary(kept, queues);
            forall i :: 0 <= i < |rows| ==> IsTotal(rows[i], Filter(queues, InVHost(kept, rows[i].vhost)))
  {
    ColumnConserves(kept, queues, ROW_QUEUES, ONE);
    ColumnConserves(kept, queues, ROW_MESSAGES, MESSAGES);
    ColumnConserves(kept, queues, ROW_CONSUMERS, CONSUMERS);
    var rows := Summary(kept, queues);
    forall i | 0 <= i < |rows|
      ensures IsTotal(rows[i], Filter(queues, InVHost(kept, rows[i].vhost)))
    {
      RowOfTotals(rows[i], Filter(queues, InVHost(kept, rows[i].vhost)));
    }
  }

  lemma ColumnsAddUp(kept: Queue -> bool, queues: seq<Queue>)
    ensures var rows, all := Summary(kept, queues), Filter(queues, kept);
            && Sum(rows, (r: VHostSummary) => r.queues) == |all|
            && Sum(rows, (r: VHostSummary) => r.messages) == Sum(all, (q: Queue) => q.messages)
            && Sum(rows, (r: VHostSummary) => r.consumers) == Sum(all, (q: Queue) => q.consumers)
  {
    var rows, all := Summary(kept, queues), Filter(queues, kept);
    ColumnConserves(kept, queues, ROW_QUEUES, ONE);
    ColumnConserves(kept, queues, ROW_MESSAGES, MESSAGES);
    ColumnConserves(kept, queues, ROW_CONSUMERS, CONSUMERS);
    SumOfOnes(all);
    SumSame(rows, ROW_QUEUES, (r: VHostSummary) => r.queues);
    SumSame(rows, ROW_MESSAGES, (r: VHostSummary) => r.messages);
    SumSame(rows, ROW_CONSUMERS, (r: VHostSummary) => r.consumers);
    SumSame(all, MESSAGES, (q: Queue) => q.messages);
    SumSame(all, CONSUMERS, (q: Queue) => q.consumers);
  }

  /** One row a vhost, in order. */
  ghost predicate OneRowEach(rows: seq<VHostSummary>, vhosts: set<string>) {
    && (forall i, j :: 0 <= i < j < |rows| ==> Less(rows[i].vhost, rows[j].vhost))
    && (forall v :: v in vhosts <==> HasRow(rows, v))
  }

  predicate HasRow(rows: seq<VHostSummary>, v: string) {
    exists i :: 0 <= i < |rows| && rows[i].vhost == v
  }

  lemma RowsListVHosts(kept: Queue -> bool, queues: seq<Queue>, vhosts: seq<string>)
    requires StrictlySorted(vhosts)
    ensures OneRowEach(Rows(kept, queues, vhosts), Elements(vhosts))
  {
    var rows := Rows(kept, queues, vhosts);
    assert forall i :: 0 <= i < |rows| ==> rows[i].vhost == vhosts[i];
    forall v
      ensures v in Elements(vhosts) <==> HasRow(rows, v)
    {
      if v in Elements(vhosts) {
        var i :| 0 <= i < |vhosts| && vhosts[i] == v;
        assert rows[i].vhost == v;
      }
    }
  }

  /** A filtered list is the sublist its predicate picks: in order, ... */
  lemma {:induction false} FilterKeepsOrder<T>(s: seq<T>, keep: T -> bool)
    ensures Subsequence(Filter(s, keep), s)
  {
    if s != [] {
      var before, last := s[..|s| - 1], s[|s| - 1];
      FilterKeepsOrder(before, keep);
      var f := Filter(before, keep);
      assert (f + [last])[..|f|] == f && f + [] == f;
    }
  }

  /** ... with the multiplicity of every element that satisfies it, and no other element. */
  lemma {:induction false} FilterKeepsCopies<T>(s: seq<T>, keep: T -> bool, x: T)
    ensures multiset(Filter(s, keep))[x] == if keep(x) then multiset(s)[x] else 0
  {
    if s != [] {
      var before, last := s[..|s| - 1], s[|s| - 1];
      FilterKeepsCopies(before, keep, x);
      assert s == before + [last];
    }
  }

  // ---- which queues are reported ----

  /** The backlog list holds the queues that have reached the threshold, each as often as it was collected and
      with its own names and numbers, and nothing else. */
  ghost predicate ListsBacklogs(list: seq<QueueInfo>, queues: seq<Queue>, threshold: int) {
    && (forall q: Queue ::
          multiset(list)[QueueInfo(q.vhost, q.name, q.messages, q.consumers, q.durable, Other(""), Other(""))]
          == if q.vhost != "bk_usermgr" && !HasPrefix(q.name, "celeryev") && q.messages >= threshold
             then multiset(queues)[q] else 0)
    && forall e :: e in list ==> e.messageStatus == e.consumerStatus == Other("")
  }

  /** The other list: those that have messages but no consumer, outside the blacklisted vhosts. */
  ghost predicate ListsUnconsumed(list: seq<QueueInfo>, queues: seq<Queue>, blacklist: set<string>) {
    && (forall q: Queue ::
          multiset(list)[QueueInfo(q.vhost, q.name, q.messages, q.consumers, q.durable, Other(""), Other(""))]
          == if q.vhost != "bk_usermgr" && !HasPrefix(q.name, "celeryev")
                && q.consumers == 0 && q.messages > 0 && q.vhost !in blacklist
             then multiset(queues)[q] else 0)
    && forall e :: e in list ==> e.messageStatus == e.consumerStatus == Other("")
  }

  /** The table: one row for each vhost other than "bk_usermgr" that has a queue that is not an event queue. */
  ghost predicate ListsVHosts(rows: seq<VHostSummary>, queues: seq<Queue>) {
    forall v :: HasRow(rows, v) <==> HasQueue(queues, v)
  }

  ghost predicate HasQueue(queues: seq<Queue>, v: string) {
    v != "bk_usermgr" && exists q :: q in queues && q.vhost == v && !HasPrefix(q.name, "celeryev")
  }

  lemma {:induction false} InfosKeepCopies(s: seq<Queue>, q: Queue)
    ensures multiset(Infos(s))[Info(q)] == multiset(s)[q]
    ensures forall e :: e in Infos(s) ==> e.messageStatus == e.consumerStatus == Other("")
  {
    if s != [] {
      var before, last := s[..|s| - 1], s[|s| - 1];
      InfosKeepCopies(before, q);
      assert s == before + [last];
      InfosStep(before, last);
    }
  }

  lemma InfosOfFilter(queues: seq<Queue>, keep: Queue -> bool, q: Queue)
    ensures multiset(Infos(Filter(queues, keep)))[Info(q)] == if keep(q) then multiset(queues)[q] else 0
    ensures forall e :: e in Infos(Filter(queues, keep)) ==> e.messageStatus == e.consumerStatus == Other("")
  {
    InfosKeepCopies(Filter(queues, keep), q);
    FilterKeepsCopies(queues, keep, q);
  }

  lemma BacklogsAreListed(queues: seq<Queue>, threshold: int)
    ensures ListsBacklogs(Infos(Filter(queues, Exceeds(threshold))), queues, threshold)
  {
    forall q: Queue
      ensures multiset(Infos(Filter(queues, Exceeds(threshold))))[Info(q)]
           == if Exceeds(threshold)(q) then multiset(queues)[q] else 0
    {
      InfosOfFilter(queues, Exceeds(threshold), q);
    }
    InfosOfFilter(queues, Exceeds(threshold), Queue("", "", 0, 0, false));
  }

  lemma UnconsumedAreListed(queues: seq<Queue>, blacklist: set<string>)
    ensures ListsUnconsumed(Infos(Filter(queues, LacksConsumer(blacklist))), queues, blacklist)
  {
    forall q: Queue
      ensures multiset(Infos(Filter(queues, LacksConsumer(blacklist))))[Info(q)]
           == if LacksConsumer(blacklist)(q) then multiset(queues)[q] else 0
    {
      InfosOfFilter(queues, LacksConsumer(blacklist), q);
    }
    InfosOfFilter(queues, LacksConsumer(blacklist), Queue("", "", 0, 0, false));
  }

  lemma VHostHasQueue(queues: seq<Queue>, v: string)
    ensures v in VHosts(IsKept(), queues) <==> HasQueue(queues, v)
  {
    if HasQueue(queues, v) {
      var q :| q in queues && q.vhost == v && !HasPrefix(q.name, "celeryev");
      assert IsKept()(q);
    }
  }

  lemma VHostsAreListed(queues: seq<Queue>)
    ensures ListsVHosts(Summary(IsKept(), queues), queues)
  {
    NamesAreVHosts(IsKept(), queues);
    RowsListVHosts(IsKept(), queues, Sorted(VHostNames(IsKept(), queues)));
    forall v
      ensures v in VHosts(IsKept(), queues) <==> HasQueue(queues, v)
    {
      VHostHasQueue(queues, v);
    }
  }

  lemma AfterTheOld<T>(a: seq<T>, b: seq<T>)
    ensures (a + b)[|a|..] == b
  {
  }

  /** The queue loop of `Run`, then the sorted summary. */
  method AggregateQueues(status: RabbitMQStatus, queues: seq<Queue>, threshold: int, blacklist: set<string>)
    modifies status`exceedingQueues, status`noConsumerQueues, status`vhostSummary
    ensures status.exceedingQueues == old(status.exceedingQueues) + Infos(Filter(queues, Exceeds(threshold)))
    ensures status.noConsumerQueues == old(status.noConsumerQueues) + Infos(Filter(queues, LacksConsumer(blacklist)))
    ensures status.vhostSummary == old(status.vhostSummary) + Summary(IsKept(), queues)
    ensures ListsBacklogs(status.exceedingQueues[|old(status.exceedingQueues)|..], queues, threshold)
    ensures ListsUnconsumed(status.noConsumerQueues[|old(status.noConsumerQueues)|..], queues, blacklist)
    ensures ListsVHosts(status.vhostSummary[|old(status.vhostSummary)|..], queues)
  {
    BacklogsAreListed(queues, threshold);
    UnconsumedAreListed(queues, blacklist);
    VHostsAreListed(queues);
    var summaryByVHost := CollectQueues(status, queues, threshold, blacklist);
    var keys := KeysInSomeOrder(summaryByVHost.Keys);
    SummaryOfTable(IsKept(), queues, keys);
    keys := SortKeys(keys);
    AppendRows(status, summaryByVHost, keys);
    AfterTheOld(old(status.exceedingQueues), Infos(Filter(queues, Exceeds(threshold))));
    AfterTheOld(old(status.noConsumerQueues), Infos(Filter(queues, LacksConsumer(blacklist))));
    AfterTheOld(old(status.vhostSummary), Summary(IsKept(), queues));
  }

  // ---- the checker ----

  function Decimal(n: int): string
    decreases if n < 0 then 1 - n else n
  {
    if n < 0 then "-" + Decimal(-n)
    else if n < 10 then ['0' + n as char]
    else Decimal(n / 10) + ['0' + (n % 10) as char]
  }

  /** What decimal digits say, ... */
  function ReadDigits(s: string): int {
    if s == "" then 0 else 10 * ReadDigits(s[..|s| - 1]) + (s[|s| - 1] as int - '0' as int)
  }

  /** ... and what a number with a sign says. */
  function ReadDecimal(s: string): int {
    if s != "" && s[0] == '-' then -ReadDigits(s[1..]) else ReadDigits(s)
  }

  /** Decimal digits, without a leading zero unless zero itself is written. */
  predicate IsNumeral(s: string) {
    && s != "" && (s[0] == '0' ==> |s| == 1)
    && forall i :: 0 <= i < |s| ==> '0' <= s[i] <= '9'
  }

  lemma {:induction false} DigitsReadBack(n: nat)
    ensures ReadDigits(Decimal(n)) == n && IsNumeral(Decimal(n)) && (n > 0 ==> Decimal(n)[0] != '0')
  {
    if n < 10 {
      assert ReadDigits([]) == 0;
    } else {
      DigitsReadBack(n / 10);
      assert Decimal(n)[..|Decimal(n)| - 1] == Decimal(n / 10);
    }
  }

  /** A printed number is a numeral, behind a minus sign if it is negative, and reads back as the number. */
  lemma DecimalReadsBack(n: int)
    ensures ReadDecimal(Decimal(n)) == n
    ensures if n < 0 then Decimal(n)[0] == '-' && IsNumeral(Decimal(n)[1..]) else IsNumeral(Decimal(n))
  {
    DigitsReadBack(if n < 0 then -n else n);
    if n < 0 {
      assert Decimal(n)[1..] == Decimal(-n);
    }
  }

  function WarnCheck(field: string, value: string, threshold: string): CheckResult {
    CheckResult(field, value, Warn, threshold)
  }

  function Finding(found: bool, field: string, value: string): seq<CheckResult> {
    if found then [WarnCheck(field, value, "")] else []
  }

  function ClusterChecks(error: string, queuesError: string, partition: bool, abnormal: int): seq<CheckResult> {
    Finding(error != "", "rabbitmq.error", error)
    + Finding(queuesError != "", "rabbitmq.queues_error", queuesError)
    + Finding(partition, "rabbitmq.cluster_partition", "true")
    + Finding(abnormal > 0, "rabbitmq.abnormal_connections", Decimal(abnormal))
  }

  function AlarmChecks(a: NodeAlarm): seq<CheckResult> {
    (if a.memAlarm then [WarnCheck("rabbitmq.node." + a.node + ".mem_alarm", "true", "")] else [])
    + (if a.diskFreeAlarm then [WarnCheck("rabbitmq.node." + a.node + ".disk_free_alarm", "true", "")] else [])
  }

  function NodeChecks(alarms: seq<NodeAlarm>): seq<CheckResult> {
    if alarms == [] then [] else NodeChecks(alarms[..|alarms| - 1]) + AlarmChecks(alarms[|alarms| - 1])
  }

  function BacklogCheck(q: QueueInfo, threshold: int): CheckResult {
    WarnCheck(QueueField(q.vhost, q.queue, BACKLOG),
              Decimal(q.messageCount) + " msgs / " + Decimal(q.consumers) + " consumers",
              "> " + Decimal(threshold) + " msgs")
  }

  function NoConsumerCheck(q: QueueInfo): CheckResult {
    WarnCheck(QueueField(q.vhost, q.queue, NO_CONSUMER), Decimal(q.messageCount) + " msgs", "")
  }

  /** The queue-level warnings. */
  function QueueChecks(exceeding: seq<QueueInfo>, lacking: seq<QueueInfo>, threshold: int): seq<CheckResult> {
    seq(|exceeding|, i requires 0 <= i < |exceeding| => BacklogCheck(exceeding[i], threshold))
    + seq(|lacking|, i requires 0 <= i < |lacking| => NoConsumerCheck(lacking[i]))
  }

  method CheckRabbitMQ(r: RabbitMQStatus?, threshold: int) returns (results: seq<CheckResult>)
    modifies if r == null then {} else {r}
    ensures r == null ==> results == []
    ensures r != null ==>
              results == ClusterChecks(old(r.error), old(r.queuesError),
                                       old(r.clusterPartition), old(r.abnormalConnections))
                         + NodeChecks(old(r.nodeAlarms))
                         + QueueChecks(old(r.exceedingQueues), old(r.noConsumerQueues), threshold)
    ensures r != null ==>
              && unchanged(r`error, r`queuesError, r`clusterPartition, r`abnormalConnections, r`vhostSummary)
              && r.partitionStatus == (if r.clusterPartition then Warn else OK)
              && r.abnormalConnStatus == (if r.abnormalConnections > 0 then Warn else UNSET)
              && |r.nodeAlarms| == |old(r.nodeAlarms)|
              && (forall i :: 0 <= i < |r.nodeAlarms| ==>
                    var a := old(r.nodeAlarms)[i];
                    r.nodeAlarms[i] == NodeAlarm(a.node, a.memAlarm, a.diskFreeAlarm,
                                                 if a.memAlarm then Warn else OK,
                                                 if a.diskFreeAlarm then Warn else OK))
              && |r.exceedingQueues| == |old(r.exceedingQueues)|
              && (forall i :: 0 <= i < |r.exceedingQueues| ==>
                    r.exceedingQueues[i] == old(r.exceedingQueues)[i].(messageStatus := Warn))
              && |r.noConsumerQueues| == |old(r.noConsumerQueues)|
              && (forall i :: 0 <= i < |r.noConsumerQueues| ==>
                    r.noConsumerQueues[i] == old(r.noConsumerQueues)[i].(consumerStatus := Warn))
  {
    if r == null {
      return [];
    }
    results := CheckCluster(r);
    var nodes := CheckNodes(r);
    var queues := CheckQueues(r, threshold);
    results := results + nodes + queues;
  }

  /** One warning for each problem of the cluster as a whole, in this order. */
  predicate ClusterReported(
    checks: seq<CheckResult>, error: string, queuesError: string, partition: bool, abnormal: int)
  {
    var e := if error != "" then 1 else 0;
    var q := e + if queuesError != "" then 1 else 0;
    var p := q + if partition then 1 else 0;
    && |checks| == p + (if abnormal > 0 then 1 else 0)
    && (error != "" ==> checks[0] == CheckResult("rabbitmq.error", error, Warn, ""))
    && (queuesError != "" ==> checks[e] == CheckResult("rabbitmq.queues_error", queuesError, Warn, ""))
    && (partition ==> checks[q] == CheckResult("rabbitmq.cluster_partition", "true", Warn, ""))
    && (abnormal > 0 ==> checks[p] == CheckResult("rabbitmq.abnormal_connections", Decimal(abnormal), Warn, ""))
  }

  method CheckCluster(r: RabbitMQStatus) returns (results: seq<CheckResult>)
    modifies r`partitionStatus, r`abnormalConnStatus
    ensures results == ClusterChecks(r.error, r.queuesError, r.clusterPartition, r.abnormalConnections)
    ensures ClusterReported(results, r.error, r.queuesError, r.clusterPartition, r.abnormalConnections)
    ensures r.partitionStatus == if r.clusterPartition then Warn else OK
    ensures r.abnormalConnStatus == if r.abnormalConnections > 0 then Warn else UNSET
  {
    results := [];
    if r.error != "" {
      results := results + [WarnCheck("rabbitmq.error", r.error, "")];
    }
    if r.queuesError != "" {
      results := results + [WarnCheck("rabbitmq.queues_error", r.queuesError, "")];
    }
    if r.clusterPartition {
      r.partitionStatus := Warn;
      results := results + [WarnCheck("rabbitmq.cluster_partition", "true", "")];
    } else {
      r.partitionStatus := OK;
    }
    if r.abnormalConnections > 0 {
      r.abnormalConnStatus := Warn;
      results := results + [WarnCheck("rabbitmq.abnormal_connections", Decimal(r.abnormalConnections), "")];
    } else {
      r.abnormalConnStatus := UNSET;
    }
  }

  /** The warnings of the nodes, node by node, the memory alarm of a node before its disk alarm. */
  ghost predicate NodesReported(checks: seq<CheckResult>, alarms: seq<NodeAlarm>) {
    && |checks| == |NodeChecks(alarms)|
    && forall i :: 0 <= i < |alarms| ==>
         NodeReported(checks, alarms[i], |NodeChecks(alarms[..i])|, |NodeChecks(alarms[..i + 1])|)
  }

  /** One node's warnings stand between two positions: one for each alarm it has. */
  predicate NodeReported(checks: seq<CheckResult>, a: NodeAlarm, from: nat, to: nat) {
    var mem, disk := if a.memAlarm then 1 else 0, if a.diskFreeAlarm then 1 else 0;
    && from + mem + disk == to <= |checks|
    && (a.memAlarm ==> checks[from] == CheckResult("rabbitmq.node." + a.node + ".mem_alarm", "true", Warn, ""))
    && (a.diskFreeAlarm ==>
          checks[from + mem] == CheckResult("rabbitmq.node." + a.node + ".disk_free_alarm", "true", Warn, ""))
  }

  lemma {:induction false} NodesAreReported(alarms: seq<NodeAlarm>)
    ensures NodesReported(NodeChecks(alarms), alarms)
  {
    if alarms != [] {
      var n := |alarms| - 1;
      NodesAreReported(alarms[..n]);
      assert alarms[..n + 1] == alarms;
      forall i | 0 <= i < |alarms|
        ensures NodeReported(NodeChecks(alarms), alarms[i], |NodeChecks(alarms[..i])|, |NodeChecks(alarms[..i + 1])|)
      {
        if i < n {
          assert alarms[..n][..i] == alarms[..i] && alarms[..n][..i + 1] == alarms[..i + 1];
          assert NodeReported(NodeChecks(alarms[..n]), alarms[..n][i],
                              |NodeChecks(alarms[..i])|, |NodeChecks(alarms[..i + 1])|);
        }
      }
    }
  }

  method CheckNodes(r: RabbitMQStatus) returns (results: seq<CheckResult>)
    modifies r`nodeAlarms
    ensures results == NodeChecks(old(r.nodeAlarms))
    ensures |r.nodeAlarms| == |old(r.nodeAlarms)|
    ensures forall i :: 0 <= i < |r.nodeAlarms| ==>
              var a := old(r.nodeAlarms)[i];
              r.nodeAlarms[i] == NodeAlarm(a.node, a.memAlarm, a.diskFreeAlarm,
                                           if a.memAlarm then Warn else OK, if a.diskFreeAlarm then Warn else OK)
    ensures NodesReported(results, old(r.nodeAlarms))
  {
    results := [];
    ghost var before := r.nodeAlarms;
    for i := 0 to |r.nodeAlarms|
      invariant |r.nodeAlarms| == |before|
      invariant forall k :: 0 <= k < i ==>
                  r.nodeAlarms[k] == before[k].(memStatus := if before[k].memAlarm then Warn else OK,
                                                diskFreeStatus := if before[k].diskFreeAlarm then Warn else OK)
      invariant forall k :: i <= k < |before| ==> r.nodeAlarms[k] == before[k]
      invariant results == NodeChecks(before[..i])
    {
      assert before[..i + 1][..i] == before[..i];
      var a := r.nodeAlarms[i];
      ghost var soFar := results;
      if a.memAlarm {
        r.nodeAlarms := r.nodeAlarms[i := r.nodeAlarms[i].(memStatus := Warn)];
        results := results + [WarnCheck("rabbitmq.node." + a.node + ".mem_alarm", "true", "")];
      } else {
        r.nodeAlarms := r.nodeAlarms[i := r.nodeAlarms[i].(memStatus := OK)];
      }
      if a.diskFreeAlarm {
        r.nodeAlarms := r.nodeAlarms[i := r.nodeAlarms[i].(diskFreeStatus := Warn)];
        results := results + [WarnCheck("rabbitmq.node." + a.node + ".disk_free_alarm", "true", "")];
      } else {
        r.nodeAlarms := r.nodeAlarms[i := r.nodeAlarms[i].(diskFreeStatus := OK)];
      }
      assert results == soFar + AlarmChecks(a);
    }
    assert before[..|before|] == before;
    NodesAreReported(before);
  }

  /** One warning for each queue of the two lists, in order, the backlogs first. */
  predicate QueuesReported(
    checks: seq<CheckResult>, exceeding: seq<QueueInfo>, lacking: seq<QueueInfo>, threshold: int)
  {
    && |checks| == |exceeding| + |lacking|
    && (forall i :: 0 <= i < |exceeding| ==>
          var q := exceeding[i];
          checks[i] == CheckResult("rabbitmq." + q.vhost + "." + q.queue + ".backlog",
                                   Decimal(q.messageCount) + " msgs / " + Decimal(q.consumers) + " consumers",
                                   Warn, "> " + Decimal(threshold) + " msgs"))
    && (forall i :: 0 <= i < |lacking| ==>
          var q := lacking[i];
          checks[|exceeding| + i] == CheckResult("rabbitmq." + q.vhost + "." + q.queue + ".no_consumer",
                                                 Decimal(q.messageCount) + " msgs", Warn, ""))
  }

  lemma BacklogIsReported(q: QueueInfo, threshold: int)
    ensures BacklogCheck(q, threshold)
         == CheckResult("rabbitmq." + q.vhost + "." + q.queue + ".backlog",
                        Decimal(q.messageCount) + " msgs / " + Decimal(q.consumers) + " consumers",
                        Warn, "> " + Decimal(threshold) + " msgs")
  {
    assert QueueField(q.vhost, q.queue, BACKLOG) == "rabbitmq." + q.vhost + "." + q.queue + ".backlog";
  }

  lemma LackIsReported(q: QueueInfo)
    ensures NoConsumerCheck(q)
         == CheckResult("rabbitmq." + q.vhost + "." + q.queue + ".no_consumer",
                        Decimal(q.messageCount) + " msgs", Warn, "")
  {
    assert QueueField(q.vhost, q.queue, NO_CONSUMER) == "rabbitmq." + q.vhost + "." + q.queue + ".no_consumer";
  }

  lemma QueuesAreReported(exceeding: seq<QueueInfo>, lacking: seq<QueueInfo>, threshold: int)
    ensures QueuesReported(QueueChecks(exceeding, lacking, threshold), exceeding, lacking, threshold)
  {
    var checks := QueueChecks(exceeding, lacking, threshold);
    forall i | 0 <= i < |exceeding|
      ensures checks[i] == BacklogCheck(exceeding[i], threshold)
    {
    }
    forall i | 0 <= i < |exceeding| {
      BacklogIsReported(exceeding[i], threshold);
    }
    forall i | 0 <= i < |lacking|
      ensures checks[|exceeding| + i] == NoConsumerCheck(lacking[i])
    {
    }
    forall i | 0 <= i < |lacking| {
      LackIsReported(lacking[i]);
    }
  }

  method CheckQueues(r: RabbitMQStatus, threshold: int) returns (results: seq<CheckResult>)
    modifies r`exceedingQueues, r`noConsumerQueues
    ensures results == QueueChecks(old(r.exceedingQueues), old(r.noConsumerQueues), threshold)
    ensures QueuesReported(results, old(r.exceedingQueues), old(r.noConsumerQueues), threshold)
    ensures |r.exceedingQueues| == |old(r.exceedingQueues)|
    ensures forall i :: 0 <= i < |r.exceedingQueues| ==>
              r.exceedingQueues[i] == old(r.exceedingQueues)[i].(messageStatus := Warn)
    ensures |r.noConsumerQueues| == |old(r.noConsumerQueues)|
    ensures forall i :: 0 <= i < |r.noConsumerQueues| ==>
              r.noConsumerQueues[i] == old(r.noConsumerQueues)[i].(consumerStatus := Warn)
  {
    results := [];
    ghost var exceeding, lacking := r.exceedingQueues, r.noConsumerQueues;
    var backlogThr := "> " + Decimal(threshold) + " msgs";
    for i := 0 to |r.exceedingQueues|
      invariant |r.exceedingQueues| == |exceeding| && r.noConsumerQueues == lacking
      invariant forall k :: 0 <= k < i ==> r.exceedingQueues[k] == exceeding[k].(messageStatus := Warn)
      invariant forall k :: i <= k < |exceeding| ==> r.exceedingQueues[k] == exceeding[k]
      invariant results == QueueChecks(exceeding[..i], [], threshold)
    {
      var q := r.exceedingQueues[i];
      r.exceedingQueues := r.exceedingQueues[i := q.(messageStatus := Warn)];
      results := results + [CheckResult("rabbitmq." + q.vhost + "." + q.queue + ".backlog",
                              Decimal(q.messageCount) + " msgs / " + Decimal(q.consumers) + " consumers",
                              Warn, backlogThr)];
      assert QueueField(q.vhost, q.queue, BACKLOG) == "rabbitmq." + q.vhost + "." + q.queue + ".backlog";
    }
    assert exceeding[..|exceeding|] == exceeding;
    for i := 0 to |r.noConsumerQueues|
      invariant |r.noConsumerQueues| == |lacking|
      invariant |r.exceedingQueues| == |exceeding|
      invariant forall k :: 0 <= k < |exceeding| ==> r.exceedingQueues[k] == exceeding[k].(messageStatus := Warn)
      invariant forall k :: 0 <= k < i ==> r.noConsumerQueues[k] == lacking[k].(consumerStatus := Warn)
      invariant forall k :: i <= k < |lacking| ==> r.noConsumerQueues[k] == lacking[k]
      invariant results == QueueChecks(exceeding, lacking[..i], threshold)
    {
      var q := r.noConsumerQueues[i];
      r.noConsumerQueues := r.noConsumerQueues[i := q.(consumerStatus := Warn)];
      results := results + [CheckResult("rabbitmq." + q.vhost + "." + q.queue + ".no_consumer",
                              Decimal(q.messageCount) + " msgs", Warn, "")];
      assert QueueField(q.vhost, q.queue, NO_CONSUMER) == "rabbitmq." + q.vhost + "." + q.queue + ".no_consumer";
    }
    assert lacking[..|lacking|] == lacking;
    QueuesAreReported(exceeding, lacking, threshold);
  }

  /** The threshold that a backlog warning shows says "more than"; the collector lists a queue from the
      threshold on. What is shown is true of a listed queue exactly when it is not right at the threshold. */
  lemma ShownThresholdIsTrueExactlyWhen(q: Queue, threshold: int)
    requires Exceeds(threshold)(q)
    ensures BacklogCheck(Info(q), threshold).threshold == "> " + Decimal(threshold) + " msgs"
    ensures q.messages > threshold <==> q.messages != threshold
  {
  }

  // ---- the identity of a RabbitMQ alert ----

  /** The names that checker/rules.go gives to the checks of a host. */
  predicate IsHostField(f: string) {
    f in {"cpu_usage", "mem_usage", "max_open_files", "selinux", "firewalld", "chronyd", "load_average"}
    || HasPrefix(f, "disk_usage(") || HasPrefix(f, "inode_usage(")
  }

  ghost predicate HostTables(hosts: seq<HostChecks>) {
    forall h :: h in hosts ==> forall c :: c in h.checks ==> IsHostField(c.field)
  }

  lemma HostFieldsAreNotRabbit(f: string)
    requires IsHostField(f)
    ensures f != "" && f[0] != 'r'
  {
  }

  /** So a RabbitMQ finding is attributed to no host. */
  lemma RabbitHasNoHost(hosts: seq<HostChecks>, f: string)
    requires HostTables(hosts) && f != "" && f[0] == 'r'
    ensures HostAt(HostByField(hosts), f) == ""
  {
    forall i | 0 <= i < |hosts|
      ensures !Lists(hosts[i], f)
    {
      if j :| 0 <= j < |hosts[i].checks| && hosts[i].checks[j].field == f {
        assert hosts[i] in hosts && hosts[i].checks[j] in hosts[i].checks;
        HostFieldsAreNotRabbit(f);
      }
    }
    NoHostNoClaim(hosts, f);
  }

  lemma PrefixedStartsWithR(f: string)
    requires HasPrefix(f, QUEUE_PREFIX)
    ensures f != "" && f[0] == 'r'
  {
    assert f[..|QUEUE_PREFIX|][0] == QUEUE_PREFIX[0];
  }

  lemma QueueFieldHasPrefix(vhost: string, queue: string, kind: string)
    ensures HasPrefix(QueueField(vhost, queue, kind), QUEUE_PREFIX)
  {
    assert QueueField(vhost, queue, kind)[..|QUEUE_PREFIX|] == QUEUE_PREFIX;
  }

  lemma QueueFieldHasNoHost(hosts: seq<HostChecks>, vhost: string, queue: string, kind: string)
    requires HostTables(hosts)
    ensures HostAt(HostByField(hosts), QueueField(vhost, queue, kind)) == ""
  {
    QueueFieldHasPrefix(vhost, queue, kind);
    PrefixedStartsWithR(QueueField(vhost, queue, kind));
    RabbitHasNoHost(hosts, QueueField(vhost, queue, kind));
  }

  /** The name under which the signature knows a queue. */
  function Identity(q: Queue): string {
    FoldedText(q.vhost + "." + q.name)
  }

  predicate ProperNames(q: Queue) {
    q.vhost != "" && DotFree(q.vhost) && q.name != "" && NewlineFree(q.name)
  }

  /** That is its vhost exactly when the vhost is non-empty and free of dots and the queue name is
      non-empty and free of newlines. */
  lemma IdentityIsTheVHostExactlyWhen(q: Queue)
    ensures Identity(q) == q.vhost <==> ProperNames(q)
  {
    NormalizedQueueField(q.vhost, q.name, BACKLOG);
    FoldsToItsVHostExactlyWhen(q.vhost, q.name, BACKLOG);
    if NormalizeField(QueueField(q.vhost, q.name, BACKLOG)) == VHostField(q.vhost, BACKLOG) {
      VHostFieldInjective(Identity(q), BACKLOG, q.vhost, BACKLOG);
    }
  }

  function Identities(queues: seq<Queue>): set<string> {
    set q | q in queues :: Identity(q)
  }

  /** The identities of the queues a predicate picks. */
  function IdentitiesOf(queues: seq<Queue>, keep: Queue -> bool): set<string> {
    set q | q in queues && keep(q) :: Identity(q)
  }

  /** The vhosts of the queues a predicate picks. */
  function VHostsOf(queues: seq<Queue>, keep: Queue -> bool): set<string> {
    set q | q in queues && keep(q) :: q.vhost
  }

  /** The key of what the signature knows as `name`. */
  function KeyFor(name: string, kind: string): string {
    "|" + VHostField(name, kind)
  }

  function FoldedKeys(names: set<string>, kind: string): set<string> {
    set v | v in names :: KeyFor(v, kind)
  }

  lemma {:induction false} FilterMembers<T>(s: seq<T>, keep: T -> bool)
    ensures forall x :: x in Filter(s, keep) <==> x in s && keep(x)
  {
    if s != [] {
      FilterMembers(s[..|s| - 1], keep);
      assert s == s[..|s| - 1] + [s[|s| - 1]];
    }
  }

  /** The key of one queue-level warning is that of the queue's identity, whatever the names are. */
  lemma KeyOfQueueCheck(hosts: seq<HostChecks>, q: Queue, kind: string, value: string, threshold: string)
    requires HostTables(hosts) && IsKind(kind)
    ensures SignatureKey(ToAlert(HostByField(hosts), WarnCheck(QueueField(q.vhost, q.name, kind), value, threshold)))
         == KeyFor(Identity(q), kind)
  {
    QueueFieldHasNoHost(hosts, q.vhost, q.name, kind);
    NormalizedQueueField(q.vhost, q.name, kind);
  }

  /** The signature keys of a list of checks. */
  function CheckKeys(m: map<string, string>, checks: seq<CheckResult>): set<string> {
    SignatureKeys(WarnItems(m, checks))
  }

  lemma KeysOfWarnChecks(m: map<string, string>, checks: seq<CheckResult>)
    requires forall c :: c in checks ==> c.status == Warn
    ensures CheckKeys(m, checks) == set c | c in checks :: SignatureKey(ToAlert(m, c))
  {
    WarnItemsAsSet(m, checks);
    var items := WarnItems(m, checks);
    forall k
      ensures k in CheckKeys(m, checks) <==> k in set c | c in checks :: SignatureKey(ToAlert(m, c))
    {
      if k in CheckKeys(m, checks) {
        var it :| it in items && SignatureKey(it) == k;
        assert it in Elements(items);
        assert it in WarnAlerts(m, checks);
      }
      if k in set c | c in checks :: SignatureKey(ToAlert(m, c)) {
        var c :| c in checks && SignatureKey(ToAlert(m, c)) == k;
        assert ToAlert(m, c) in WarnAlerts(m, checks);
        assert ToAlert(m, c) in Elements(items);
      }
    }
  }

  lemma KeysOfConcat(m: map<string, string>, a: seq<CheckResult>, b: seq<CheckResult>)
    requires forall c :: c in a + b ==> c.status == Warn
    ensures CheckKeys(m, a + b) == CheckKeys(m, a) + CheckKeys(m, b)
  {
    assert forall c :: c in a + b <==> c in a || c in b;
    KeysOfWarnChecks(m, a);
    KeysOfWarnChecks(m, b);
    KeysOfWarnChecks(m, a + b);
  }

  function BacklogChecks(s: seq<QueueInfo>, threshold: int): seq<CheckResult> {
    QueueChecks(s, [], threshold)
  }

  function NoConsumerChecks(s: seq<QueueInfo>): seq<CheckResult> {
    QueueChecks([], s, 0)
  }

  lemma QueueChecksSplit(exceeding: seq<QueueInfo>, lacking: seq<QueueInfo>, threshold: int)
    ensures QueueChecks(exceeding, lacking, threshold)
         == BacklogChecks(exceeding, threshold) + NoConsumerChecks(lacking)
    ensures forall c :: c in QueueChecks(exceeding, lacking, threshold) ==> c.status == Warn
  {
  }

  /** Two lists that agree under `f` and `g`, element for element, have the same image. */
  lemma SameImage<A, B, C>(xs: seq<A>, ys: seq<B>, f: A -> C, g: B -> C)
    requires |xs| == |ys| && forall i :: 0 <= i < |xs| ==> f(xs[i]) == g(ys[i])
    ensures (set x | x in xs :: f(x)) == (set y | y in ys :: g(y))
  {
    forall x | x in xs
      ensures f(x) in set y | y in ys :: g(y)
    {
      var i :| 0 <= i < |xs| && xs[i] == x;
      assert ys[i] in ys;
    }
    forall y | y in ys
      ensures g(y) in set x | x in xs :: f(x)
    {
      var i :| 0 <= i < |ys| && ys[i] == y;
      assert xs[i] in xs;
    }
  }

  lemma KeysOfIdentities(s: seq<Queue>, kind: string)
    ensures FoldedKeys(Identities(s), kind) == set q | q in s :: KeyFor(Identity(q), kind)
  {
    forall q | q in s
      ensures KeyFor(Identity(q), kind) in FoldedKeys(Identities(s), kind)
    {
      assert Identity(q) in Identities(s);
    }
  }

  /** Checks that warn about the queues of a list, one each. */
  predicate WarnsAbout(checks: seq<CheckResult>, s: seq<Queue>, kind: string) {
    |checks| == |s|
    && forall i :: 0 <= i < |s| ==>
         checks[i] == WarnCheck(QueueField(s[i].vhost, s[i].name, kind), checks[i].value, checks[i].threshold)
  }

  lemma KeysOfQueueList(hosts: seq<HostChecks>, checks: seq<CheckResult>, s: seq<Queue>, kind: string)
    requires HostTables(hosts) && IsKind(kind) && WarnsAbout(checks, s, kind)
    ensures CheckKeys(HostByField(hosts), checks) == FoldedKeys(Identities(s), kind)
  {
    var m := HostByField(hosts);
    forall c | c in checks
      ensures c.status == Warn
    {
      var i :| 0 <= i < |checks| && checks[i] == c;
    }
    KeysOfWarnChecks(m, checks);
    forall i | 0 <= i < |s|
      ensures SignatureKey(ToAlert(m, checks[i])) == KeyFor(Identity(s[i]), kind)
    {
      KeyOfQueueCheck(hosts, s[i], kind, checks[i].value, checks[i].threshold);
    }
    SameImage(checks, s, c => SignatureKey(ToAlert(m, c)), q => KeyFor(Identity(q), kind));
    KeysOfIdentities(s, kind);
  }

  lemma BothWarnAbout(s: seq<Queue>, threshold: int)
    ensures WarnsAbout(BacklogChecks(Infos(s), threshold), s, BACKLOG)
    ensures WarnsAbout(NoConsumerChecks(Infos(s)), s, NO_CONSUMER)
  {
    var backlogs, lacks := BacklogChecks(Infos(s), threshold), NoConsumerChecks(Infos(s));
    forall i | 0 <= i < |s|
      ensures backlogs[i] == BacklogCheck(Info(s[i]), threshold) && lacks[i] == NoConsumerCheck(Info(s[i]))
    {
    }
  }

  /** The queue-level checks of one collection, and their keys. */
  function ChecksOfQueues(queues: seq<Queue>, threshold: int, blacklist: set<string>): seq<CheckResult> {
    QueueChecks(
      Infos(Filter(queues, Exceeds(threshold))), Infos(Filter(queues, LacksConsumer(blacklist))), threshold)
  }

  function QueueKeys(hosts: seq<HostChecks>, queues: seq<Queue>, threshold: int, blacklist: set<string>): set<string> {
    CheckKeys(HostByField(hosts), ChecksOfQueues(queues, threshold, blacklist))
  }

  lemma IdentitiesOfFilter(queues: seq<Queue>, keep: Queue -> bool)
    ensures Identities(Filter(queues, keep)) == IdentitiesOf(queues, keep)
  {
    FilterMembers(queues, keep);
  }

  /** The queue-level signature keys are made from exactly two sets of identities, whatever the names. */
  lemma QueueKeysAreIdentities(hosts: seq<HostChecks>, queues: seq<Queue>, threshold: int, blacklist: set<string>)
    requires HostTables(hosts)
    ensures QueueKeys(hosts, queues, threshold, blacklist)
         == FoldedKeys(IdentitiesOf(queues, Exceeds(threshold)), BACKLOG)
            + FoldedKeys(IdentitiesOf(queues, LacksConsumer(blacklist)), NO_CONSUMER)
  {
    var exceeding, lacking := Filter(queues, Exceeds(threshold)), Filter(queues, LacksConsumer(blacklist));
    QueueChecksSplit(Infos(exceeding), Infos(lacking), threshold);
    KeysOfConcat(HostByField(hosts), BacklogChecks(Infos(exceeding), threshold), NoConsumerChecks(Infos(lacking)));
    BothWarnAbout(exceeding, threshold);
    BothWarnAbout(lacking, threshold);
    KeysOfQueueList(hosts, BacklogChecks(Infos(exceeding), threshold), exceeding, BACKLOG);
    KeysOfQueueList(hosts, NoConsumerChecks(Infos(lacking)), lacking, NO_CONSUMER);
    IdentitiesOfFilter(queues, Exceeds(threshold));
    IdentitiesOfFilter(queues, LacksConsumer(blacklist));
  }

  /** A check whose name the signature leaves alone. */
  predicate KeepsItsName(c: CheckResult) {
    c.status == Warn && NormalizeField(c.field) == c.field && HasPrefix(c.field, QUEUE_PREFIX)
  }

  ghost predicate AllKeepTheirNames(checks: seq<CheckResult>) {
    forall c :: c in checks ==> KeepsItsName(c)
  }

  lemma FindingKept(found: bool, name: string, field: string, value: string)
    requires DotFree(name) && field == QUEUE_PREFIX + name
    ensures AllKeepTheirNames(Finding(found, field, value))
  {
    ClusterFieldsUntouched(name);
  }

  lemma ErrorsKept(error: string, queuesError: string)
    ensures AllKeepTheirNames(Finding(error != "", "rabbitmq.error", error))
    ensures AllKeepTheirNames(Finding(queuesError != "", "rabbitmq.queues_error", queuesError))
  {
    FindingKept(error != "", "error", "rabbitmq.error", error);
    FindingKept(queuesError != "", "queues_error", "rabbitmq.queues_error", queuesError);
  }

  lemma PartitionKept(partition: bool)
    ensures AllKeepTheirNames(Finding(partition, "rabbitmq.cluster_partition", "true"))
  {
    FindingKept(partition, "cluster_partition", "rabbitmq.cluster_partition", "true");
  }

  lemma ConnectionsKept(found: bool, count: string)
    ensures AllKeepTheirNames(Finding(found, "rabbitmq.abnormal_connections", count))
  {
    FindingKept(found, "abnormal_connections", "rabbitmq.abnormal_connections", count);
  }

  lemma AllOfFourKeep(a: seq<CheckResult>, b: seq<CheckResult>, c: seq<CheckResult>, d: seq<CheckResult>)
    requires AllKeepTheirNames(a) && AllKeepTheirNames(b) && AllKeepTheirNames(c) && AllKeepTheirNames(d)
    ensures AllKeepTheirNames(a + b + c + d)
  {
  }

  /** The cluster-level findings are not folded, ... */
  lemma ClusterChecksKeepTheirNames(error: string, queuesError: string, partition: bool, abnormal: int)
    ensures AllKeepTheirNames(ClusterChecks(error, queuesError, partition, abnormal))
  {
    ErrorsKept(error, queuesError);
    PartitionKept(partition);
    ConnectionsKept(abnormal > 0, Decimal(abnormal));
    AllOfFourKeep(
      Finding(error != "", "rabbitmq.error", error),
      Finding(queuesError != "", "rabbitmq.queues_error", queuesError),
      Finding(partition, "rabbitmq.cluster_partition", "true"),
      Finding(abnormal > 0, "rabbitmq.abnormal_connections", Decimal(abnormal)));
  }

  /** ... nor are those of the nodes, whatever the nodes are called. */
  lemma {:induction false} NodeChecksKeepTheirNames(alarms: seq<NodeAlarm>)
    ensures AllKeepTheirNames(NodeChecks(alarms))
  {
    if alarms != [] {
      NodeChecksKeepTheirNames(alarms[..|alarms| - 1]);
      NodeFieldsUntouched(alarms[|alarms| - 1].node);
    }
  }

  lemma KeyForInjective(v1: string, k1: string, v2: string, k2: string)
    requires IsKind(k1) && IsKind(k2) && KeyFor(v1, k1) == KeyFor(v2, k2)
    ensures v1 == v2 && k1 == k2
  {
    assert KeyFor(v1, k1)[1..] == VHostField(v1, k1);
    assert KeyFor(v2, k2)[1..] == VHostField(v2, k2);
    VHostFieldInjective(v1, k1, v2, k2);
  }

  /** The folded names give the two sets back. */
  lemma FoldedKeysDetermine(a1: set<string>, b1: set<string>, a2: set<string>, b2: set<string>)
    requires FoldedKeys(a1, BACKLOG) + FoldedKeys(b1, NO_CONSUMER)
          == FoldedKeys(a2, BACKLOG) + FoldedKeys(b2, NO_CONSUMER)
    ensures a1 <= a2 && b1 <= b2
  {
    forall v | v in a1
      ensures v in a2
    {
      assert KeyFor(v, BACKLOG) in FoldedKeys(a2, BACKLOG) + FoldedKeys(b2, NO_CONSUMER);
      FindsVHost(v, BACKLOG, a2, b2);
    }
    forall v | v in b1
      ensures v in b2
    {
      assert KeyFor(v, NO_CONSUMER) in FoldedKeys(b1, NO_CONSUMER);
      assert KeyFor(v, NO_CONSUMER) in FoldedKeys(a2, BACKLOG) + FoldedKeys(b2, NO_CONSUMER);
      FindsVHost(v, NO_CONSUMER, a2, b2);
    }
  }

  lemma FindsVHost(v: string, kind: string, a: set<string>, b: set<string>)
    requires IsKind(kind) && KeyFor(v, kind) in FoldedKeys(a, BACKLOG) + FoldedKeys(b, NO_CONSUMER)
    ensures kind == BACKLOG ==> v in a
    ensures kind == NO_CONSUMER ==> v in b
  {
    if KeyFor(v, kind) in FoldedKeys(a, BACKLOG) {
      var u :| u in a && KeyFor(u, BACKLOG) == KeyFor(v, kind);
      KeyForInjective(u, BACKLOG, v, kind);
    } else {
      var u :| u in b && KeyFor(u, NO_CONSUMER) == KeyFor(v, kind);
      KeyForInjective(u, NO_CONSUMER, v, kind);
    }
  }

  /** End to end: two collections have the same queue-level alert identity exactly when the exceeding
      queues have the same set of identities, and so have the queues without consumer; how the names fold
      is `IdentityIsTheVHostExactlyWhen`. */
  lemma QueueKeysAgreeExactlyWhen(
      h1: seq<HostChecks>, q1: seq<Queue>, h2: seq<HostChecks>, q2: seq<Queue>, threshold: int, blacklist: set<string>)
    requires HostTables(h1) && HostTables(h2)
    ensures QueueKeys(h1, q1, threshold, blacklist) == QueueKeys(h2, q2, threshold, blacklist)
       <==> IdentitiesOf(q1, Exceeds(threshold)) == IdentitiesOf(q2, Exceeds(threshold))
            && IdentitiesOf(q1, LacksConsumer(blacklist)) == IdentitiesOf(q2, LacksConsumer(blacklist))
  {
    QueueKeysAreIdentities(h1, q1, threshold, blacklist);
    QueueKeysAreIdentities(h2, q2, threshold, blacklist);
    var a1, b1 := IdentitiesOf(q1, Exceeds(threshold)), IdentitiesOf(q1, LacksConsumer(blacklist));
    var a2, b2 := IdentitiesOf(q2, Exceeds(threshold)), IdentitiesOf(q2, LacksConsumer(blacklist));
    if FoldedKeys(a1, BACKLOG) + FoldedKeys(b1, NO_CONSUMER) == FoldedKeys(a2, BACKLOG) + FoldedKeys(b2, NO_CONSUMER) {
      FoldedKeysDetermine(a1, b1, a2, b2);
      FoldedKeysDetermine(a2, b2, a1, b1);
    }
  }

  /** The queues that a predicate picks have proper names. */
  predicate WellNamed(queues: seq<Queue>, keep: Queue -> bool) {
    forall q :: q in queues && keep(q) ==> ProperNames(q)
  }

  lemma WellNamedByVHost(queues: seq<Queue>, keep: Queue -> bool)
    requires WellNamed(queues, keep)
    ensures IdentitiesOf(queues, keep) == VHostsOf(queues, keep)
  {
    forall q | q in queues && keep(q)
      ensures Identity(q) == q.vhost
    {
      IdentityIsTheVHostExactlyWhen(q);
    }
  }

  /** With proper names these are the sets of vhosts, whatever the queues are called and however many
      there are. */
  lemma QueueIdentityIsTheVHosts(
      h1: seq<HostChecks>, q1: seq<Queue>, h2: seq<HostChecks>, q2: seq<Queue>, threshold: int, blacklist: set<string>)
    requires HostTables(h1) && HostTables(h2)
    requires WellNamed(q1, Exceeds(threshold)) && WellNamed(q1, LacksConsumer(blacklist))
    requires WellNamed(q2, Exceeds(threshold)) && WellNamed(q2, LacksConsumer(blacklist))
    ensures QueueKeys(h1, q1, threshold, blacklist) == QueueKeys(h2, q2, threshold, blacklist)
       <==> VHostsOf(q1, Exceeds(threshold)) == VHostsOf(q2, Exceeds(threshold))
            && VHostsOf(q1, LacksConsumer(blacklist)) == VHostsOf(q2, LacksConsumer(blacklist))
  {
    QueueKeysAgreeExactlyWhen(h1, q1, h2, q2, threshold, blacklist);
    WellNamedByVHost(q1, Exceeds(threshold));
    WellNamedByVHost(q1, LacksConsumer(blacklist));
    WellNamedByVHost(q2, Exceeds(threshold));
    WellNamedByVHost(q2, LacksConsumer(blacklist));
  }

  // ---- the whole path ----

  /** The keys of findings that keep their names. */
  function OwnKeys(checks: seq<CheckResult>): set<string> {
    set c | c in checks :: "|" + c.field
  }

  lemma KeysOfKeptNames(hosts: seq<HostChecks>, checks: seq<CheckResult>)
    requires HostTables(hosts) && AllKeepTheirNames(checks)
    ensures CheckKeys(HostByField(hosts), checks) == OwnKeys(checks)
  {
    var m := HostByField(hosts);
    KeysOfWarnChecks(m, checks);
    forall i | 0 <= i < |checks|
      ensures SignatureKey(ToAlert(m, checks[i])) == "|" + checks[i].field
    {
      assert checks[i] in checks && KeepsItsName(checks[i]);
      PrefixedStartsWithR(checks[i].field);
      RabbitHasNoHost(hosts, checks[i].field);
    }
    SameImage(checks, checks, c => SignatureKey(ToAlert(m, c)), (c: CheckResult) => "|" + c.field);
  }

  /** The signature keys of everything that is checked. */
  lemma KeysOfAllChecks(
      hosts: seq<HostChecks>, others: seq<CheckResult>, queues: seq<Queue>, threshold: int, blacklist: set<string>)
    requires HostTables(hosts) && AllKeepTheirNames(others)
    ensures CheckKeys(HostByField(hosts), others + ChecksOfQueues(queues, threshold, blacklist))
         == OwnKeys(others) + QueueKeys(hosts, queues, threshold, blacklist)
  {
    var exceeding, lacking := Filter(queues, Exceeds(threshold)), Filter(queues, LacksConsumer(blacklist));
    QueueChecksSplit(Infos(exceeding), Infos(lacking), threshold);
    assert forall c :: c in others ==> KeepsItsName(c);
    KeysOfConcat(HostByField(hosts), others, ChecksOfQueues(queues, threshold, blacklist));
    KeysOfKeptNames(hosts, others);
  }

  /** The cluster-level and node-level findings of a status. */
  ghost function OtherChecks(status: RabbitMQStatus): seq<CheckResult>
    reads status`error, status`queuesError, status`clusterPartition, status`abnormalConnections, status`nodeAlarms
  {
    ClusterChecks(status.error, status.queuesError, status.clusterPartition, status.abnormalConnections)
    + NodeChecks(status.nodeAlarms)
  }

  method CollectFirst(status: RabbitMQStatus, queues: seq<Queue>, threshold: int, blacklist: set<string>)
    requires status.exceedingQueues == [] && status.noConsumerQueues == []
    modifies status`exceedingQueues, status`noConsumerQueues, status`vhostSummary
    ensures status.exceedingQueues == Infos(Filter(queues, Exceeds(threshold)))
    ensures status.noConsumerQueues == Infos(Filter(queues, LacksConsumer(blacklist)))
    ensures OtherChecks(status) == old(OtherChecks(status))
  {
    AggregateQueues(status, queues, threshold, blacklist);
    NothingBefore(queues, threshold, blacklist);
  }

  method CheckCollected(status: RabbitMQStatus, ghost queues: seq<Queue>, threshold: int, ghost blacklist: set<string>)
    returns (results: seq<CheckResult>)
    requires status.exceedingQueues == Infos(Filter(queues, Exceeds(threshold)))
    requires status.noConsumerQueues == Infos(Filter(queues, LacksConsumer(blacklist)))
    modifies status
    ensures results == old(OtherChecks(status)) + ChecksOfQueues(queues, threshold, blacklist)
    ensures AllKeepTheirNames(old(OtherChecks(status)))
  {
    OtherFindingsKeepTheirNames(
      status.error, status.queuesError, status.clusterPartition, status.abnormalConnections, status.nodeAlarms);
    results := CheckRabbitMQ(status, threshold);
  }

  /** Collect the queues into a status that has none yet, then check it: the signature sees each other
      finding under its own name and the queues under their identities. */
  method CollectAndCheck(
      status: RabbitMQStatus, queues: seq<Queue>, threshold: int, blacklist: set<string>, ghost hosts: seq<HostChecks>)
    returns (results: seq<CheckResult>)
    requires status.exceedingQueues == [] && status.noConsumerQueues == [] && HostTables(hosts)
    modifies status
    ensures results == old(OtherChecks(status)) + ChecksOfQueues(queues, threshold, blacklist)
    ensures SignatureKeys(WarnItems(HostByField(hosts), results))
         == OwnKeys(old(OtherChecks(status)))
            + FoldedKeys(IdentitiesOf(queues, Exceeds(threshold)), BACKLOG)
            + FoldedKeys(IdentitiesOf(queues, LacksConsumer(blacklist)), NO_CONSUMER)
  {
    ghost var others := OtherChecks(status);
    CollectFirst(status, queues, threshold, blacklist);
    results := CheckCollected(status, queues, threshold, blacklist);
    KeysOfInspection(hosts, others, queues, threshold, blacklist);
  }

  lemma KeysOfInspection(
      hosts: seq<HostChecks>, others: seq<CheckResult>, queues: seq<Queue>, threshold: int, blacklist: set<string>)
    requires HostTables(hosts) && AllKeepTheirNames(others)
    ensures SignatureKeys(WarnItems(HostByField(hosts), others + ChecksOfQueues(queues, threshold, blacklist)))
         == OwnKeys(others)
            + FoldedKeys(IdentitiesOf(queues, Exceeds(threshold)), BACKLOG)
            + FoldedKeys(IdentitiesOf(queues, LacksConsumer(blacklist)), NO_CONSUMER)
  {
    KeysOfAllChecks(hosts, others, queues, threshold, blacklist);
    QueueKeysAreIdentities(hosts, queues, threshold, blacklist);
  }

  lemma NothingBefore(queues: seq<Queue>, threshold: int, blacklist: set<string>)
    ensures [] + Infos(Filter(queues, Exceeds(threshold))) == Infos(Filter(queues, Exceeds(threshold)))
    ensures [] + Infos(Filter(queues, LacksConsumer(blacklist))) == Infos(Filter(queues, LacksConsumer(blacklist)))
  {
  }

  lemma OtherFindingsKeepTheirNames(
      error: string, queuesError: string, partition: bool, abnormal: int, alarms: seq<NodeAlarm>)
    ensures AllKeepTheirNames(ClusterChecks(error, queuesError, partition, abnormal) + NodeChecks(alarms))
  {
    ClusterChecksKeepTheirNames(error, queuesError, partition, abnormal);
    NodeChecksKeepTheirNames(alarms);
  }
}
