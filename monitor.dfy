/**
 * The system monitor (`log_analyzer.py`): a snapshot of collected metrics is
 * turned into a summary dictionary and an ordered list of alert messages by five
 * fixed threshold rules; the run then optionally appends a record to the history,
 * composes an email report, and beeps.
 */
module Monitor {
  import opened Wrappers
  import Text
  import Dict
  import History
  import Cli

  /** What the collectors returned: CPU and memory use in percent, the `df` use
      column (such as "87%"), the temperature when it could be read, and the
      `systemctl is-active` answer. */
  datatype Snapshot = Snapshot(
    cpu: real, memory: real, disk: string, temperature: Option<real>, service: string)

  /** A value stored in the summary dictionary: a float, a string, or None. */
  datatype Value = Number(x: real) | Str(s: string) | NoneValue

  const TemperatureAlert: string := "WARNING: CPU temperature is high"
  const DiskAlert: string := "ERROR: Disk usage exceeds threshold"
  const ServiceAlert: string := "CRITICAL: Service failed to start"
  const CpuAlert: string := "WARNING: CPU usage is above 50%"
  const MemoryAlert: string := "WARNING: Memory usage is above 70%"

  // ---------------------------------------------------------------------------
  // The rule table

  datatype Rule = HighTemperature | DiskFull | ServiceDown | HighCpu | HighMemory

  /** The rules in the order they are checked. */
  const RuleTable: seq<Rule> := [HighTemperature, DiskFull, ServiceDown, HighCpu, HighMemory]

  function Message(r: Rule): string {
    match r
    case HighTemperature => TemperatureAlert
    case DiskFull => DiskAlert
    case ServiceDown => ServiceAlert
    case HighCpu => CpuAlert
    case HighMemory => MemoryAlert
  }

  /** The position of a rule in the table. */
  function Rank(r: Rule): (n: nat)
    ensures n < |RuleTable| && RuleTable[n] == r
  {
    match r
    case HighTemperature => 0
    case DiskFull => 1
    case ServiceDown => 2
    case HighCpu => 3
    case HighMemory => 4
  }

  /** The position in the table of the rule that emits `m`; 5 for any other text. */
  function MessageRank(m: string): nat {
    if m == TemperatureAlert then 0
    else if m == DiskAlert then 1
    else if m == ServiceAlert then 2
    else if m == CpuAlert then 3
    else if m == MemoryAlert then 4
    else 5
  }

  lemma MessageRankOfMessage(r: Rule)
    ensures MessageRank(Message(r)) == Rank(r)
  {
  }

  /** `int(disk.replace('%', ''))`, or 0 when that raises. */
  function DiskPercent(disk: string): int {
    match Text.PyInt(Text.RemoveAll(disk, '%'))
    case Some(n) => n
    case None => 0
  }

  predicate Fires(r: Rule, s: Snapshot) {
    match r
    case HighTemperature => s.temperature.Some? && s.temperature.value > 70.0
    case DiskFull => DiskPercent(s.disk) > 90
    case ServiceDown => s.service != "active"
    case HighCpu => s.cpu > 50.0
    case HighMemory => s.memory > 70.0
  }

  predicate RankSorted(rules: seq<Rule>) {
    forall i, j :: 0 <= i < j < |rules| ==> Rank(rules[i]) < Rank(rules[j])
  }

  /** `[r]` when `r` fires on `s`, `[]` otherwise. */
  function Checked(r: Rule, s: Snapshot): seq<Rule> {
    if Fires(r, s) then [r] else []
  }

  /** The rules of `rules` that fire on `s`, in the order of `rules`. */
  function Fired(rules: seq<Rule>, s: Snapshot): (fired: seq<Rule>)
    ensures |fired| <= |rules|
  {
    if rules == [] then [] else Checked(rules[0], s) + Fired(rules[1..], s)
  }

  lemma {:induction false} FiredMember(rules: seq<Rule>, s: Snapshot, r: Rule)
    ensures r in Fired(rules, s) <==> r in rules && Fires(r, s)
  {
    if rules != [] {
      FiredMember(rules[1..], s, r);
      assert r in rules <==> r == rules[0] || r in rules[1..];
    }
  }

  lemma {:induction false} FiredSorted(rules: seq<Rule>, s: Snapshot)
    requires RankSorted(rules)
    ensures RankSorted(Fired(rules, s))
  {
    if rules != [] {
      var rest := Fired(rules[1..], s);
      assert RankSorted(rules[1..]);
      FiredSorted(rules[1..], s);
      if Fires(rules[0], s) {
        var fired := Fired(rules, s);
        assert fired == [rules[0]] + rest;
        forall i | 0 < i < |fired| ensures Rank(rules[0]) < Rank(fired[i]) {
          FiredMember(rules[1..], s, fired[i]);
          var j :| 0 <= j < |rules[1..]| && rules[1..][j] == fired[i];
          assert rules[j + 1] == fired[i];
        }
      }
    }
  }

  function Messages(rules: seq<Rule>): (ms: seq<string>)
    ensures |ms| == |rules|
  {
    seq(|rules|, i requires 0 <= i < |rules| => Message(rules[i]))
  }

  lemma MessagesSnoc(rules: seq<Rule>, r: Rule)
    ensures Messages(rules + [r]) == Messages(rules) + [Message(r)]
  {
  }

  lemma MessageInjective(r: Rule, r': Rule)
    ensures Message(r) == Message(r') ==> r == r'
  {
    if r != r' {
      assert |Message(r)| != |Message(r')|;
    }
  }

  /** A message is in the messages of `rules` exactly when its rule is. */
  lemma MessageIn(rules: seq<Rule>, r: Rule)
    ensures Message(r) in Messages(rules) <==> r in rules
  {
    var ms := Messages(rules);
    if Message(r) in ms {
      var i :| 0 <= i < |ms| && ms[i] == Message(r);
      MessageInjective(r, rules[i]);
    }
    if r in rules {
      var i :| 0 <= i < |rules| && rules[i] == r;
      assert ms[i] == Message(r);
    }
  }

  lemma MessagesRanked(rules: seq<Rule>)
    requires RankSorted(rules)
    ensures forall i :: 0 <= i < |rules| ==> MessageRank(Messages(rules)[i]) == Rank(rules[i])
    ensures forall i :: 0 <= i < |rules| ==> MessageRank(Messages(rules)[i]) < 5
    ensures forall p, q :: 0 <= p < q < |rules| ==>
      MessageRank(Messages(rules)[p]) < MessageRank(Messages(rules)[q])
  {
    forall i | 0 <= i < |rules| ensures MessageRank(Messages(rules)[i]) == Rank(rules[i]) {
      MessageRankOfMessage(rules[i]);
    }
  }

  /** A rule's message is among the messages of the fired rules exactly when
      the rule fires. */
  lemma FiredMessages(s: Snapshot)
    ensures forall r :: Message(r) in Messages(Fired(RuleTable, s)) <==> Fires(r, s)
  {
    forall r ensures Message(r) in Messages(Fired(RuleTable, s)) <==> Fires(r, s) {
      assert RuleTable[Rank(r)] == r;
      FiredMember(RuleTable, s, r);
      MessageIn(Fired(RuleTable, s), r);
    }
  }

  lemma TableSorted()
    ensures RankSorted(RuleTable)
  {
  }

  /** The messages of the fired rules are in strict table order. */
  lemma FiredMessagesRanked(s: Snapshot)
    ensures forall p, q :: 0 <= p < q < |Messages(Fired(RuleTable, s))| ==>
      MessageRank(Messages(Fired(RuleTable, s))[p]) < MessageRank(Messages(Fired(RuleTable, s))[q])
    ensures forall i :: 0 <= i < |Messages(Fired(RuleTable, s))| ==>
      MessageRank(Messages(Fired(RuleTable, s))[i]) < 5
  {
    TableSorted();
    FiredSorted(RuleTable, s);
    MessagesRanked(Fired(RuleTable, s));
  }

  /** The alert list of a snapshot, by the rule table: exactly the messages of
      the rules that fire, each once, in table order. */
  function Alerts(s: Snapshot): (alerts: seq<string>)
    ensures forall r :: Message(r) in alerts <==> Fires(r, s)
    ensures forall p, q :: 0 <= p < q < |alerts| ==> MessageRank(alerts[p]) < MessageRank(alerts[q])
    ensures forall i :: 0 <= i < |alerts| ==> MessageRank(alerts[i]) < 5
    ensures |alerts| <= 5
  {
    FiredMessages(s);
    FiredMessagesRanked(s);
    Messages(Fired(RuleTable, s))
  }

  // ---------------------------------------------------------------------------
  // monitor_system

  /** The five keys of the summary dictionary. */
  datatype Field = CpuUsage | MemoryUsage | DiskUsage | CpuTemperature | ServiceStatus

  /** The key string each field is stored under. */
  function Key(f: Field): string {
    match f
    case CpuUsage => "cpu_usage_percent"
    case MemoryUsage => "memory_usage_percent"
    case DiskUsage => "disk_usage"
    case CpuTemperature => "cpu_temperature_celsius"
    case ServiceStatus => "service_status"
  }

  /** Distinct fields are stored under distinct key strings. */
  lemma KeyInjective(f: Field, g: Field)
    ensures Key(f) == Key(g) ==> f == g
  {
    if f != g {
      assert |Key(f)| != |Key(g)|;
    }
  }

  /** The keys in the order they are assigned. */
  const SummaryKeys: seq<Field> := [CpuUsage, MemoryUsage, DiskUsage, CpuTemperature, ServiceStatus]

  function TemperatureValue(t: Option<real>): Value {
    match t
    case Some(x) => Number(x)
    case None => NoneValue
  }

  /** `monitor_system`: fill the summary dictionary, then check the thresholds. */
  method MonitorSystem(snap: Snapshot) returns (summary: seq<(Field, Value)>, alerts: seq<string>)
    ensures summary == Summary(snap)
    ensures alerts == Alerts(snap)
    ensures TemperatureAlert in alerts <==> snap.temperature.Some? && snap.temperature.value > 70.0
    ensures DiskAlert in alerts <==>
      (var p := Text.PyInt(Text.RemoveAll(snap.disk, '%')); p.Some? && p.value > 90)
    ensures ServiceAlert in alerts <==> snap.service != "active"
    ensures CpuAlert in alerts <==> snap.cpu > 50.0
    ensures MemoryAlert in alerts <==> snap.memory > 70.0
  {
    summary := FillSummary(snap);
    alerts := CheckThresholds(snap);
    assert Message(HighTemperature) == TemperatureAlert && Message(DiskFull) == DiskAlert;
    assert Message(ServiceDown) == ServiceAlert && Message(HighCpu) == CpuAlert;
    assert Message(HighMemory) == MemoryAlert;
  }

  /** The summary dictionary: the five collected values under their keys, in the
      order they are assigned. */
  function Summary(snap: Snapshot): seq<(Field, Value)> {
    [(CpuUsage, Number(snap.cpu)),
     (MemoryUsage, Number(snap.memory)),
     (DiskUsage, Str(snap.disk)),
     (CpuTemperature, TemperatureValue(snap.temperature)),
     (ServiceStatus, Str(snap.service))]
  }

  /** The summary has exactly the five keys, each holding its collected value. */
  lemma SummaryContents(snap: Snapshot)
    ensures Dict.Keys(Summary(snap)) == SummaryKeys
    ensures Dict.Find(Summary(snap), CpuUsage) == Some(Number(snap.cpu))
    ensures Dict.Find(Summary(snap), MemoryUsage) == Some(Number(snap.memory))
    ensures Dict.Find(Summary(snap), DiskUsage) == Some(Str(snap.disk))
    ensures Dict.Find(Summary(snap), CpuTemperature) == Some(TemperatureValue(snap.temperature))
    ensures Dict.Find(Summary(snap), ServiceStatus) == Some(Str(snap.service))
  {
    var d := Summary(snap);
    assert Dict.Keys(d) == SummaryKeys;
    Dict.FindEntry(d, 0);
    Dict.FindEntry(d, 1);
    Dict.FindEntry(d, 2);
    Dict.FindEntry(d, 3);
    Dict.FindEntry(d, 4);
  }

  /** log_analyzer.py, lines 96-100: the dictionary is assigned key by key. */
  method FillSummary(snap: Snapshot) returns (summary: seq<(Field, Value)>)
    ensures summary == Summary(snap)
  {
    summary := [];
    assert Dict.Keys(summary) == [];
    Dict.PutNewKey(summary, CpuUsage, Number(snap.cpu));
    summary := Dict.Put(summary, CpuUsage, Number(snap.cpu));
    Dict.PutNewKey(summary, MemoryUsage, Number(snap.memory));
    summary := Dict.Put(summary, MemoryUsage, Number(snap.memory));
    Dict.PutNewKey(summary, DiskUsage, Str(snap.disk));
    summary := Dict.Put(summary, DiskUsage, Str(snap.disk));
    Dict.PutNewKey(summary, CpuTemperature, TemperatureValue(snap.temperature));
    summary := Dict.Put(summary, CpuTemperature, TemperatureValue(snap.temperature));
    Dict.PutNewKey(summary, ServiceStatus, Str(snap.service));
    summary := Dict.Put(summary, ServiceStatus, Str(snap.service));
    AppendFive((CpuUsage, Number(snap.cpu)), (MemoryUsage, Number(snap.memory)), (DiskUsage, Str(snap.disk)),
      (CpuTemperature, TemperatureValue(snap.temperature)), (ServiceStatus, Str(snap.service)));
  }

  lemma AppendFive<T>(a: T, b: T, c: T, d: T, e: T)
    ensures [] + [a] + [b] + [c] + [d] + [e] == [a, b, c, d, e]
  {
  }

  /** Appending the messages of a rule that was checked. */
  lemma MessagesStep(fired: seq<Rule>, r: Rule, s: Snapshot)
    ensures Messages(fired + Checked(r, s)) ==
      Messages(fired) + (if Fires(r, s) then [Message(r)] else [])
  {
    if Fires(r, s) {
      MessagesSnoc(fired, r);
    } else {
      assert fired + Checked(r, s) == fired;
    }
  }

  /** log_analyzer.py, lines 113-131: each rule appends its message when it fires. */
  method CheckThresholds(snap: Snapshot) returns (alerts: seq<string>)
    ensures alerts == Alerts(snap)
  {
    // `f1` .. `f5` name the rules behind the messages appended so far.
    alerts := [];
    if snap.temperature.Some? && snap.temperature.value > 70.0 {
      alerts := alerts + [TemperatureAlert];
    }
    ghost var f1 := Checked(HighTemperature, snap);
    MessagesStep([], HighTemperature, snap);
    assert alerts == Messages(f1);
    var diskPercent := DiskPercent(snap.disk);
    if diskPercent > 90 {
      alerts := alerts + [DiskAlert];
    }
    ghost var f2 := f1 + Checked(DiskFull, snap);
    MessagesStep(f1, DiskFull, snap);
    assert alerts == Messages(f2);
    if snap.service != "active" {
      alerts := alerts + [ServiceAlert];
    }
    ghost var f3 := f2 + Checked(ServiceDown, snap);
    MessagesStep(f2, ServiceDown, snap);
    assert alerts == Messages(f3);
    if snap.cpu > 50.0 {
      alerts := alerts + [CpuAlert];
    }
    ghost var f4 := f3 + Checked(HighCpu, snap);
    MessagesStep(f3, HighCpu, snap);
    assert alerts == Messages(f4);
    if snap.memory > 70.0 {
      alerts := alerts + [MemoryAlert];
    }
    ghost var f5 := f4 + Checked(HighMemory, snap);
    MessagesStep(f4, HighMemory, snap);
    assert alerts == Messages(f5);
    FiredByRule(snap);
    Regroup(Checked(HighTemperature, snap), Checked(DiskFull, snap), Checked(ServiceDown, snap),
      Checked(HighCpu, snap), Checked(HighMemory, snap));
    AlertsOfFired(snap);
  }

  lemma Regroup<T>(a: seq<T>, b: seq<T>, c: seq<T>, d: seq<T>, e: seq<T>)
    ensures a + b + c + d + e == a + (b + (c + (d + e)))
    ensures a + b + c + d + e == a + (b + c + d) + e
  {
  }

  lemma AlertsOfFired(s: Snapshot)
    ensures Alerts(s) == Messages(Fired(RuleTable, s))
  {
  }

  /** The rule table checked rule by rule. */
  lemma FiredByRule(s: Snapshot)
    ensures Fired(RuleTable, s) ==
      Checked(HighTemperature, s) + (Checked(DiskFull, s) + (Checked(ServiceDown, s) +
      (Checked(HighCpu, s) + Checked(HighMemory, s))))
  {
    var t0 := RuleTable;
    var t1 := [DiskFull, ServiceDown, HighCpu, HighMemory];
    var t2 := [ServiceDown, HighCpu, HighMemory];
    var t3 := [HighCpu, HighMemory];
    var t4 := [HighMemory];
    assert t0[1..] == t1 && t1[1..] == t2 && t2[1..] == t3 && t3[1..] == t4 && t4[1..] == [];
    var a, b, c, d, e := Checked(HighTemperature, s), Checked(DiskFull, s), Checked(ServiceDown, s),
      Checked(HighCpu, s), Checked(HighMemory, s);
    assert Fired([], s) == [];
    assert Fired(t4, s) == e + Fired([], s) == e;
    assert Fired(t3, s) == d + Fired(t4, s);
    assert Fired(t2, s) == c + Fired(t3, s);
    assert Fired(t1, s) == b + Fired(t2, s);
    assert Fired(t0, s) == a + Fired(t1, s);
  }

  /** A `df` reading of a whole percentage is read back as that percentage. */
  lemma DiskPercentOfReading(n: int)
    ensures DiskPercent(Text.Decimal(n) + "%") == n
  {
    var d := Text.Decimal(n);
    assert '%' !in d;
    Text.RemoveAllConcat(d, "%", '%');
    Text.RemoveAllAbsent(d, '%');
    assert Text.RemoveAll("%", '%') == [];
    assert Text.RemoveAll(d + "%", '%') == d;
    Text.PyIntOfDecimal(n);
  }

  /** A hot CPU, a nearly full disk and a stopped service, at moderate memory use. */
  const BusySnapshot: Snapshot := Snapshot(55.0, 40.0, "95%", Some(75.0), "inactive")

  lemma BusyDisk()
    ensures DiskPercent(BusySnapshot.disk) == 95
  {
    assert Text.NatDigits(9) == ['9'];
    assert Text.NatDigits(95) == ['9', '5'];
    assert BusySnapshot.disk == Text.Decimal(95) + "%";
    DiskPercentOfReading(95);
  }

  lemma BusyFired()
    ensures Fired(RuleTable, BusySnapshot) == [HighTemperature, DiskFull, ServiceDown, HighCpu]
  {
    var s := BusySnapshot;
    BusyDisk();
    assert Checked(HighTemperature, s) == [HighTemperature] && Checked(DiskFull, s) == [DiskFull];
    assert Checked(ServiceDown, s) == [ServiceDown] && Checked(HighCpu, s) == [HighCpu];
    assert Checked(HighMemory, s) == [];
    FiredByRule(s);
    PrependFour(HighTemperature, DiskFull, ServiceDown, HighCpu);
  }

  lemma PrependFour<T>(a: T, b: T, c: T, d: T)
    ensures [a] + ([b] + ([c] + ([d] + []))) == [a, b, c, d]
  {
  }

  /** On that snapshot every alert but the memory one is raised, in table order. */
  lemma BusyAlerts()
    ensures Alerts(BusySnapshot) == [TemperatureAlert, DiskAlert, ServiceAlert, CpuAlert]
  {
    BusyFired();
    AlertsOfFired(BusySnapshot);
    MessagesOfFour(HighTemperature, DiskFull, ServiceDown, HighCpu);
  }

  lemma MessagesOfFour(a: Rule, b: Rule, c: Rule, d: Rule)
    ensures Messages([a, b, c, d]) == [Message(a), Message(b), Message(c), Message(d)]
  {
  }

  // ---------------------------------------------------------------------------
  // The email report

  const ReportHeader: string := "System Monitor Report\n\nSummary:\n"
  const AlertsHeading: string := "\nAlerts:\n"

  /** `str(v)`; how a float is printed is given by `show`. */
  function Render(v: Value, show: real -> string): string {
    match v
    case Number(x) => show(x)
    case Str(t) => t
    case NoneValue => "None"
  }

  function ItemLine(x: string): string {
    "- " + x + "\n"
  }

  function ItemLines(xs: seq<string>): string {
    if xs == [] then "" else ItemLines(xs[..|xs| - 1]) + ItemLine(xs[|xs| - 1])
  }

  function FieldText(k: Field, v: Value, show: real -> string): string {
    Key(k) + ": " + Render(v, show)
  }

  function FieldTexts(summary: seq<(Field, Value)>, show: real -> string): (r: seq<string>)
    ensures |r| == |summary|
  {
    seq(|summary|, i requires 0 <= i < |summary| => FieldText(summary[i].0, summary[i].1, show))
  }

  /** The report text: the header, one `- key: value` line per summary entry,
      the alerts heading, one `- alert` line per alert. */
  function ReportBody(summary: seq<(Field, Value)>, alerts: seq<string>, show: real -> string): string {
    ReportHeader + ItemLines(FieldTexts(summary, show)) + AlertsHeading + ItemLines(alerts)
  }

  lemma ItemLinesSnoc(xs: seq<string>, i: nat)
    requires i < |xs|
    ensures ItemLines(xs[..i + 1]) == ItemLines(xs[..i]) + ItemLine(xs[i])
  {
    assert xs[..i + 1][..i] == xs[..i];
  }

  /** log_analyzer.py, lines 164-169: the body is built line by line. */
  method ComposeReport(summary: seq<(Field, Value)>, alerts: seq<string>, show: real -> string)
    returns (body: string)
    ensures body == ReportBody(summary, alerts, show)
  {
    body := ReportHeader;
    body := AppendFieldLines(body, summary, show);
    body := body + AlertsHeading;
    body := AppendAlertLines(body, alerts);
  }

  /** log_analyzer.py, lines 165-166: one `- key: value` line per summary entry. */
  method AppendFieldLines(start: string, summary: seq<(Field, Value)>, show: real -> string)
    returns (body: string)
    ensures body == start + ItemLines(FieldTexts(summary, show))
  {
    ghost var fields := FieldTexts(summary, show);
    body := start;
    var i := 0;
    while i < |summary|
      invariant 0 <= i <= |summary|
      invariant body == start + ItemLines(fields[..i])
    {
      var (k, v) := summary[i];
      body := body + ItemLine(FieldText(k, v, show));
      ItemLinesSnoc(fields, i);
      Text.ConcatAssoc(start, ItemLines(fields[..i]), ItemLine(fields[i]));
      i := i + 1;
    }
    assert fields[..i] == fields;
  }

  /** log_analyzer.py, lines 168-169: one `- alert` line per alert. */
  method AppendAlertLines(start: string, alerts: seq<string>) returns (body: string)
    ensures body == start + ItemLines(alerts)
  {
    body := start;
    var j := 0;
    while j < |alerts|
      invariant 0 <= j <= |alerts|
      invariant body == start + ItemLines(alerts[..j])
    {
      body := body + "- " + alerts[j] + "\n";
      ItemLinesSnoc(alerts, j);
      Text.ConcatAssoc(start, ItemLines(alerts[..j]), ItemLine(alerts[j]));
      j := j + 1;
    }
    assert alerts[..j] == alerts;
  }

  // Reading the report back

  predicate StartsItem(s: string) {
    |s| >= 2 && s[0] == '-' && s[1] == ' '
  }

  /** Split off the leading `- item` lines of `s`. */
  function ParseItems(s: string): (seq<string>, string)
    decreases |s|
  {
    if StartsItem(s) then
      var t := s[2..];
      match Text.FindChar(t, '\n')
      case None => ([], s)
      case Some(j) =>
        var rest := ParseItems(t[j + 1..]);
        ([t[..j]] + rest.0, rest.1)
    else ([], s)
  }

  /** The summary lines and the alert lines of a report text. */
  function ParseReport(body: string): Option<(seq<string>, seq<string>)> {
    var h := |ReportHeader|;
    if |body| >= h && body[..h] == ReportHeader then
      var (fields, r1) := ParseItems(body[h..]);
      var a := |AlertsHeading|;
      if |r1| >= a && r1[..a] == AlertsHeading then
        var (alerts, r2) := ParseItems(r1[a..]);
        if r2 == "" then Some((fields, alerts)) else None
      else None
    else None
  }

  lemma {:induction false} ItemLinesCons(xs: seq<string>)
    requires xs != []
    ensures ItemLines(xs) == ItemLine(xs[0]) + ItemLines(xs[1..])
  {
    if |xs| > 1 {
      var init := xs[..|xs| - 1];
      var last := ItemLine(xs[|xs| - 1]);
      assert init[1..] == xs[1..][..|xs[1..]| - 1];
      assert ItemLines(xs[1..]) == ItemLines(init[1..]) + last;
      ItemLinesCons(init);
      Text.ConcatAssoc(ItemLine(xs[0]), ItemLines(init[1..]), last);
    } else {
      assert xs[..0] == [];
    }
  }

  /** One `- item` line is split off a text that starts with it. */
  lemma ParseItemsStep(x: string, tail: string)
    requires '\n' !in x
    ensures ParseItems(ItemLine(x) + tail) == ([x] + ParseItems(tail).0, ParseItems(tail).1)
  {
    var t := x + ("\n" + tail);
    Text.ConcatAssoc("- " + x, "\n", tail);
    Text.ConcatAssoc("- ", x, "\n" + tail);
    var s := ItemLine(x) + tail;
    assert s == "- " + t;
    assert s[2..] == t;
    assert StartsItem(s);
    assert "\n" + tail == ['\n'] + tail;
    Text.FindCharAfter(x, '\n', tail);
    assert t[..|x|] == x;
    assert t[|x| + 1..] == tail;
  }

  lemma {:induction false} ParseItemLines(xs: seq<string>, rest: string)
    requires forall i :: 0 <= i < |xs| ==> '\n' !in xs[i]
    requires !StartsItem(rest)
    ensures ParseItems(ItemLines(xs) + rest) == (xs, rest)
  {
    if xs != [] {
      ItemLinesCons(xs);
      Text.ConcatAssoc(ItemLine(xs[0]), ItemLines(xs[1..]), rest);
      ParseItemsStep(xs[0], ItemLines(xs[1..]) + rest);
      ParseItemLines(xs[1..], rest);
      assert [xs[0]] + xs[1..] == xs;
    } else {
      assert ItemLines(xs) + rest == rest;
    }
  }

  /** A report whose summary values and alerts are single lines reads back as
      the summary lines and the alerts it was composed from, in order. */
  lemma ReportRoundTrip(summary: seq<(Field, Value)>, alerts: seq<string>, show: real -> string)
    requires forall i :: 0 <= i < |summary| ==> '\n' !in FieldText(summary[i].0, summary[i].1, show)
    requires forall i :: 0 <= i < |alerts| ==> '\n' !in alerts[i]
    ensures ParseReport(ReportBody(summary, alerts, show)) == Some((FieldTexts(summary, show), alerts))
  {
    var fields := FieldTexts(summary, show);
    var items := ItemLines(alerts);
    var r1 := AlertsHeading + items;
    Text.ConcatAssoc(ReportHeader + ItemLines(fields), AlertsHeading, items);
    Text.ConcatAssoc(ReportHeader, ItemLines(fields), r1);
    Text.SplitConcat(ReportHeader, ItemLines(fields) + r1);
    ParseItemLines(fields, r1);
    Text.SplitConcat(AlertsHeading, items);
    assert items + "" == items;
    ParseItemLines(alerts, "");
  }

  // ---------------------------------------------------------------------------
  // main

  datatype MetricsRecord = MetricsRecord(timestamp: string, summary: seq<(Field, Value)>, alerts: seq<string>)

  datatype Email = Email(subject: string, body: string, recipient: string)

  /** What a run produced besides the history file: the summary and the alerts,
      the email handed to the mailer (if any), and whether it beeped. */
  datatype MonitorReport = MonitorReport(
    summary: seq<(Field, Value)>, alerts: seq<string>, email: Option<Email>, beep: bool)

  const EmailSubject: string := "\U{1F6A8} System Alert Report"

  /** One run of the monitor over an already collected snapshot.  Both scripts
      append to the same history file, so its element type `E` is left open;
      `encode` turns this script's record into an element. */
  method RunMonitor<E>(
    history: History.HistoryFile<E>, encode: MetricsRecord -> E, flags: Cli.Flags, snap: Snapshot,
    timestamp: string, show: real -> string)
    returns (report: MonitorReport)
    requires Cli.CheckArgs(flags).Ok?
    modifies history
    ensures report.summary == Summary(snap)
    ensures report.alerts == Alerts(snap)
    ensures Dict.Keys(report.summary) == SummaryKeys
    ensures history.stored ==
      if flags.saveSummary
      then History.Persist(old(history.stored), encode(MetricsRecord(timestamp, report.summary, report.alerts)))
      else old(history.stored)
    ensures report.email ==
      if flags.getEmail && report.alerts != []
      then Some(Email(EmailSubject, ReportBody(report.summary, report.alerts, show), flags.recipient.value))
      else None
    ensures report.beep <==> flags.getBeep && report.alerts != []
  {
    var summary, alerts := MonitorSystem(snap);
    if flags.saveSummary {
      history.Save(encode(MetricsRecord(timestamp, summary, alerts)));
    }
    var email: Option<Email> := None;
    if flags.getEmail && alerts != [] {
      var body := ComposeReport(summary, alerts, show);
      email := Some(Email(EmailSubject, body, flags.recipient.value));
    }
    var beep := flags.getBeep && alerts != [];
    report := MonitorReport(summary, alerts, email, beep);
  }
}
