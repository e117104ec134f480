// Issuing Qift's legal invoices under concurrency: the idempotent look-up, the
// number allocated inside the transaction, commit, rollback and the unique
// index on the campaign (src/corporate/invoice.service.ts), with the number
// format of src/references/reference.ts. The database serializes allocations in
// one series: the series row stays locked until the transaction ends.

module InvoiceNumbering {
  import opened Wrappers
  import Billing

  // ── Number format ─────────────────────────────────────────────────

  function Digit(d: nat): char
    requires d < 10
  {
    '0' + d as char
  }

  function Decimal(n: nat): string {
    if n < 10 then [Digit(n)] else Decimal(n / 10) + [Digit(n % 10)]
  }

  function PadStart(s: string, width: nat): string
    decreases width - |s|
  {
    if |s| < width then PadStart("0" + s, width) else s
  }

  function FormatSequentialReference(prefix: string, year: int, value: int): Result<string> {
    if year < 2020 || year > 2099 then Failure("reference_series_year_invalid")
    else if value < 1 then Failure("reference_sequence_value_invalid")
    else Success(prefix + "-" + Decimal(year) + "-" + PadStart(Decimal(value), 5))
  }

  function ValueOfDigits(s: string): int {
    if s == "" then 0 else 10 * ValueOfDigits(s[..|s| - 1]) + (s[|s| - 1] as int - '0' as int)
  }

  lemma {:induction false} DecimalRoundTrip(n: nat)
    ensures ValueOfDigits(Decimal(n)) == n
  {
    if n < 10 {
      assert Decimal(n)[..0] == "";
    } else {
      DecimalRoundTrip(n / 10);
      assert Decimal(n)[..|Decimal(n)| - 1] == Decimal(n / 10);
    }
  }

  lemma {:induction false} LeadingZero(s: string)
    ensures ValueOfDigits("0" + s) == ValueOfDigits(s)
  {
    if s == "" {
      assert ("0" + s)[..0] == "";
    } else {
      assert ("0" + s)[..|s|] == "0" + s[..|s| - 1];
      LeadingZero(s[..|s| - 1]);
    }
  }

  lemma {:induction false} PaddingKeepsValue(s: string, width: nat)
    ensures ValueOfDigits(PadStart(s, width)) == ValueOfDigits(s)
    decreases width - |s|
  {
    if |s| < width {
      LeadingZero(s);
      PaddingKeepsValue("0" + s, width);
    }
  }

  lemma FourDigits(year: nat)
    requires 1000 <= year <= 9999
    ensures |Decimal(year)| == 4
  {
    assert |Decimal(year / 1000)| == 1;
    assert |Decimal(year / 100)| == 2 by { assert year / 100 / 10 == year / 1000; }
    assert |Decimal(year / 10)| == 3 by { assert year / 10 / 10 == year / 100; }
  }

  // A printed number names its series and its place in it.
  lemma ReferencesAreInjective(prefix: string, y: int, v: int, y': int, v': int)
    requires FormatSequentialReference(prefix, y, v).Success?
    requires FormatSequentialReference(prefix, y, v) == FormatSequentialReference(prefix, y', v')
    ensures y == y' && v == v'
  {
    var s := FormatSequentialReference(prefix, y, v).value;
    FourDigits(y);
    FourDigits(y');
    var k := |prefix| + 1;
    assert s[k..k + 4] == Decimal(y) && s[k..k + 4] == Decimal(y');
    assert s[k + 5..] == PadStart(Decimal(v), 5) && s[k + 5..] == PadStart(Decimal(v'), 5);
    DecimalRoundTrip(y);
    DecimalRoundTrip(y');
    DecimalRoundTrip(v);
    DecimalRoundTrip(v');
    PaddingKeepsValue(Decimal(v), 5);
    PaddingKeepsValue(Decimal(v'), 5);
  }

  predicate AllDigits(s: string) {
    forall i :: 0 <= i < |s| ==> '0' <= s[i] <= '9'
  }

  lemma {:induction false} DecimalIsPlain(n: nat)
    ensures AllDigits(Decimal(n)) && Decimal(n) != "" && (n > 0 ==> Decimal(n)[0] != '0')
  {
    if n >= 10 {
      DecimalIsPlain(n / 10);
    }
  }

  lemma {:induction false} PaddingIsPlain(s: string, width: nat)
    requires AllDigits(s)
    ensures
      var t := PadStart(s, width);
      AllDigits(t) && |t| == (if |s| < width then width else |s|) && (|s| >= width ==> t == s)
    decreases width - |s|
  {
    if |s| < width {
      PaddingIsPlain("0" + s, width);
    }
  }

  // The year in four digits and the place in five or more, with no more leading
  // zeros than it takes to make five.
  ghost predicate Prints(text: string, prefix: string, year: int, value: int) {
    exists y: string, v: string :: PrintsAs(text, prefix, y, v, year, value)
  }

  predicate PrintsAs(text: string, prefix: string, y: string, v: string, year: int, value: int) {
    && text == prefix + "-" + y + "-" + v
    && AllDigits(y) && |y| == 4 && ValueOfDigits(y) == year
    && AllDigits(v) && |v| >= 5 && ValueOfDigits(v) == value && (|v| > 5 ==> v[0] != '0')
  }

  // A number is made exactly for a year of this century from 2020 on and a place
  // from one on, and reads as that.
  lemma FormatsExactlyWhen(prefix: string, year: int, value: int)
    ensures
      var r := FormatSequentialReference(prefix, year, value);
      && (r.Success? <==> 2020 <= year <= 2099 && value >= 1)
      && (r.Success? ==> Prints(r.value, prefix, year, value))
  {
    hide Decimal;
    hide PadStart;
    hide ValueOfDigits;
    hide AllDigits;
    var r := FormatSequentialReference(prefix, year, value);
    if r.Success? {
      FourDigits(year);
      DecimalIsPlain(year);
      DecimalRoundTrip(year);
      PaddedIsPlain(value);
      assert PrintsAs(r.value, prefix, Decimal(year), PadStart(Decimal(value), 5), year, value);
    }
  }

  lemma PaddedIsPlain(value: nat)
    requires value > 0
    ensures
      var v := PadStart(Decimal(value), 5);
      AllDigits(v) && |v| >= 5 && ValueOfDigits(v) == value && (|v| > 5 ==> v[0] != '0')
  {
    hide Decimal;
    hide PadStart;
    hide ValueOfDigits;
    hide AllDigits;
    DecimalIsPlain(value);
    DecimalRoundTrip(value);
    PaddingIsPlain(Decimal(value), 5);
    PaddingKeepsValue(Decimal(value), 5);
  }

  // ── The table and its callers ─────────────────────────────────────

  datatype Invoice = Invoice(
    number: string, year: int, value: nat, campaignId: nat, amounts: Billing.InvoiceAmounts)

  // What the campaign looks like when a caller reads it.
  datatype CampaignFacts = CampaignFacts(found: bool, status: string, price: Option<real>, recipients: nat)

  datatype Caller =
    | Idle
    | Prepared(campaignId: nat, year: int, amounts: Billing.InvoiceAmounts)
    // Inside the transaction: the series row is incremented but not committed.
    | Allocated(campaignId: nat, year: int, amounts: Billing.InvoiceAmounts, value: nat)
    | Returned(campaignId: nat, invoice: Invoice)
    | Threw(error: string)

  datatype Office = Office(
    invoices: seq<Invoice>, lastValue: map<int, nat>, lockedBy: map<int, nat>, callers: map<nat, Caller>)

  datatype Event =
    | Begin(caller: nat, campaignId: nat, facts: CampaignFacts, year: int)
    | Allocate(caller: nat)
    | Finish(caller: nat)
    | Crash(caller: nat)

  function LastValue(o: Office, year: int): nat {
    if year in o.lastValue then o.lastValue[year] else 0
  }

  function CallerOf(o: Office, c: nat): Caller {
    if c in o.callers then o.callers[c] else Idle
  }

  function FindByCampaign(invoices: seq<Invoice>, campaignId: nat): (r: Option<Invoice>)
    ensures r.Some? <==> exists i :: 0 <= i < |invoices| && invoices[i].campaignId == campaignId
    ensures r.Some? ==> r.value in invoices && r.value.campaignId == campaignId
  {
    if invoices == [] then None
    else if invoices[|invoices| - 1].campaignId == campaignId then Some(invoices[|invoices| - 1])
    else FindByCampaign(invoices[..|invoices| - 1], campaignId)
  }

  function Refusal(facts: CampaignFacts): Option<string> {
    if !facts.found then Some("campaign_not_found")
    else if facts.status != "approved" then Some("campaign_not_approved")
    else if facts.price.None? then Some("campaign_no_snapshot")
    else if facts.recipients == 0 then Some("campaign_recipients_required")
    else None
  }

  function BeginStep(o: Office, c: nat, campaignId: nat, facts: CampaignFacts, year: int): Office {
    var existing := FindByCampaign(o.invoices, campaignId);
    var after :=
      if existing.Some? then Returned(campaignId, existing.value)
      else if Refusal(facts).Some? then Threw(Refusal(facts).value)
      else Prepared(campaignId, year, Billing.ComputeInvoiceAmounts(facts.price.value, facts.recipients));
    o.(callers := o.callers[c := after])
  }

  // The increment waits for the series lock; until then the caller stands still.
  function AllocateStep(o: Office, c: nat): Office {
    var caller := CallerOf(o, c);
    if !caller.Prepared? || caller.year in o.lockedBy then o
    else o.(
      lockedBy := o.lockedBy[caller.year := c],
      callers := o.callers[c := Allocated(
        caller.campaignId, caller.year, caller.amounts, LastValue(o, caller.year) + 1)])
  }

  // Create and commit, or roll back: on an invalid number, or because the
  // campaign has its invoice already, in which case the caller reads that one.
  function FinishStep(o: Office, c: nat): Office {
    var caller := CallerOf(o, c);
    if !caller.Allocated? then o
    else
      var unlocked := o.(lockedBy := o.lockedBy - {caller.year});
      var number := FormatSequentialReference("QC", caller.year, caller.value);
      var raced := FindByCampaign(o.invoices, caller.campaignId);
      if number.Failure? then unlocked.(callers := o.callers[c := Threw(number.error)])
      else if raced.Some? then unlocked.(callers := o.callers[c := Returned(caller.campaignId, raced.value)])
      else
        var invoice := Invoice(number.value, caller.year, caller.value, caller.campaignId, caller.amounts);
        unlocked.(
          invoices := o.invoices + [invoice],
          lastValue := o.lastValue[caller.year := caller.value],
          callers := o.callers[c := Returned(caller.campaignId, invoice)])
  }

  // The process dies: an open transaction rolls back.
  function CrashStep(o: Office, c: nat): Office {
    var caller := CallerOf(o, c);
    var unlocked := if caller.Allocated? then o.(lockedBy := o.lockedBy - {caller.year}) else o;
    unlocked.(callers := o.callers[c := Idle])
  }

  function Apply(o: Office, e: Event): Office {
    match e
    case Begin(c, campaignId, facts, year) =>
      if CallerOf(o, c).Prepared? || CallerOf(o, c).Allocated? then o
      else BeginStep(o, c, campaignId, facts, year)
    case Allocate(c) => AllocateStep(o, c)
    case Finish(c) => FinishStep(o, c)
    case Crash(c) => CrashStep(o, c)
  }

  const OPENING := Office([], map[], map[], map[])

  function Run(events: seq<Event>): Office {
    if events == [] then OPENING else Apply(Run(events[..|events| - 1]), events[|events| - 1])
  }

  // ── The service ───────────────────────────────────────────────────

  class InvoiceService {
    var office: Office

    constructor ()
      ensures office == OPENING
    {
      office := OPENING;
    }

    // One call from start to end. `dies` says that the process stops inside the
    // transaction.
    method EnsureInvoiceForCampaign(caller: nat, campaignId: nat, facts: CampaignFacts, year: int, dies: bool)
      returns (r: Result<Invoice>)
      requires CallerOf(office, caller).Idle? && year !in office.lockedBy
      modifies this
      ensures r.Success? ==> r.value in office.invoices && r.value.campaignId == campaignId
      ensures
        var begun := Apply(old(office), Begin(caller, campaignId, facts, year));
        var ended := Apply(Apply(begun, Allocate(caller)), if dies then Crash(caller) else Finish(caller));
        if CallerOf(begun, caller).Prepared? then
          office == ended.(callers := office.callers)
          && (r.Success? <==> CallerOf(ended, caller).Returned?)
          && (r.Success? ==> r.value == CallerOf(ended, caller).invoice)
        else
          office == old(office)
          && r == (if CallerOf(begun, caller).Returned? then Success(CallerOf(begun, caller).invoice)
                   else Failure(Refusal(facts).value))
    {
      hide FormatSequentialReference;
      hide Billing.ComputeInvoiceAmounts;
      var existing := FindByCampaign(office.invoices, campaignId);
      if existing.Some? {
        return Success(existing.value);
      }
      var refusal := Refusal(facts);
      if refusal.Some? {
        return Failure(refusal.value);
      }
      var amounts := Billing.ComputeInvoiceAmounts(facts.price.value, facts.recipients);
      var value := LastValue(office, year) + 1;
      assert office.lockedBy[year := caller] - {year} == office.lockedBy;
      if dies {
        return Failure("process died");
      }
      var number := FormatSequentialReference("QC", year, value);
      if number.Failure? {
        return Failure(number.error);
      }
      var invoice := Invoice(number.value, year, value, campaignId, amounts);
      office := office.(
        invoices := office.invoices + [invoice], lastValue := office.lastValue[year := value]);
      assert office.invoices[|office.invoices| - 1] == invoice;
      r := Success(invoice);
    }
  }

  // ── Safety over every run ─────────────────────────────────────────

  function InYear(invoices: seq<Invoice>, year: int): nat {
    if invoices == [] then 0
    else InYear(invoices[..|invoices| - 1], year) + if invoices[|invoices| - 1].year == year then 1 else 0
  }

  // Every invoice carries the number after those issued before it in its year.
  ghost predicate InSeries(invoices: seq<Invoice>) {
    forall i :: 0 <= i < |invoices| ==>
      && invoices[i].value == InYear(invoices[..i], invoices[i].year) + 1
      && FormatSequentialReference("QC", invoices[i].year, invoices[i].value) == Success(invoices[i].number)
  }

  ghost predicate OnePerCampaign(invoices: seq<Invoice>) {
    forall i, j :: 0 <= i < j < |invoices| ==> invoices[i].campaignId != invoices[j].campaignId
  }

  ghost predicate Sound(o: Office) {
    && InSeries(o.invoices)
    && OnePerCampaign(o.invoices)
    && (forall year :: LastValue(o, year) == InYear(o.invoices, year))
    && (forall c :: c in o.callers && o.callers[c].Allocated? ==>
          && o.callers[c].year in o.lockedBy && o.lockedBy[o.callers[c].year] == c
          && o.callers[c].value == LastValue(o, o.callers[c].year) + 1)
    && (forall c :: c in o.callers && o.callers[c].Returned? ==>
          o.callers[c].invoice in o.invoices && o.callers[c].invoice.campaignId == o.callers[c].campaignId)
  }

  lemma OneMoreInSeries(invoices: seq<Invoice>, invoice: Invoice)
    requires InSeries(invoices) && OnePerCampaign(invoices)
    requires invoice.value == InYear(invoices, invoice.year) + 1
    requires FormatSequentialReference("QC", invoice.year, invoice.value) == Success(invoice.number)
    requires FindByCampaign(invoices, invoice.campaignId).None?
    ensures InSeries(invoices + [invoice]) && OnePerCampaign(invoices + [invoice])
    ensures forall year ::
      InYear(invoices + [invoice], year) == InYear(invoices, year) + if year == invoice.year then 1 else 0
  {
    hide FormatSequentialReference;
    var all := invoices + [invoice];
    assert all[..|invoices|] == invoices;
    assert forall i :: 0 <= i < |invoices| ==> all[..i] == invoices[..i];
  }

  lemma FinishKeepsSound(o: Office, c: nat)
    requires Sound(o)
    ensures Sound(FinishStep(o, c)) && o.invoices <= FinishStep(o, c).invoices
  {
    hide FormatSequentialReference;
    hide InSeries;
    hide OnePerCampaign;
    hide InYear;
    hide FindByCampaign;
    var caller := CallerOf(o, c);
    if caller.Allocated? {
      var number := FormatSequentialReference("QC", caller.year, caller.value);
      if number.Success? && FindByCampaign(o.invoices, caller.campaignId).None? {
        OneMoreInSeries(o.invoices,
          Invoice(number.value, caller.year, caller.value, caller.campaignId, caller.amounts));
      }
    }
  }

  lemma StepKeepsSound(o: Office, e: Event)
    requires Sound(o)
    ensures Sound(Apply(o, e)) && o.invoices <= Apply(o, e).invoices
  {
    hide InSeries;
    hide OnePerCampaign;
    hide FinishStep;
    if e.Finish? {
      FinishKeepsSound(o, e.caller);
    }
  }

  lemma {:induction false} RunsAreSound(events: seq<Event>)
    ensures Sound(Run(events))
  {
    hide Apply;
    if events != [] {
      RunsAreSound(events[..|events| - 1]);
      StepKeepsSound(Run(events[..|events| - 1]), events[|events| - 1]);
    }
  }

  // ── Who gets on ───────────────────────────────────────────────────

  // A call is answered at once exactly if its campaign has its invoice, and goes
  // on exactly if it has none, was approved with a price and has recipients.
  lemma BeginsExactlyWhen(o: Office, c: nat, campaignId: nat, facts: CampaignFacts, year: int)
    requires !CallerOf(o, c).Prepared? && !CallerOf(o, c).Allocated?
    ensures
      var after := CallerOf(Apply(o, Begin(c, campaignId, facts, year)), c);
      && (after.Returned? <==> exists i :: 0 <= i < |o.invoices| && o.invoices[i].campaignId == campaignId)
      && (after.Returned? ==> after.invoice in o.invoices && after.invoice.campaignId == campaignId)
      && (after.Prepared? <==>
            && (forall i :: 0 <= i < |o.invoices| ==> o.invoices[i].campaignId != campaignId)
            && facts.found && facts.status == "approved" && facts.price.Some? && facts.recipients > 0)
  {
    hide Billing.ComputeInvoiceAmounts;
  }

  // At the end of its transaction a caller is answered exactly for a year that
  // numbers can be made for, with the invoice its campaign has then, and it adds
  // that invoice exactly if there was none.
  lemma FinishesExactlyWhen(o: Office, c: nat)
    requires Sound(o) && CallerOf(o, c).Allocated?
    ensures
      var caller, after := CallerOf(o, c), Apply(o, Finish(c));
      var had := exists i :: 0 <= i < |o.invoices| && o.invoices[i].campaignId == caller.campaignId;
      && (CallerOf(after, c).Returned? <==> 2020 <= caller.year <= 2099)
      && (CallerOf(after, c).Returned? ==>
            CallerOf(after, c).invoice in after.invoices && CallerOf(after, c).invoice.campaignId == caller.campaignId)
      && (if had || !CallerOf(after, c).Returned? then after.invoices == o.invoices
          else
            && |after.invoices| == |o.invoices| + 1 && after.invoices[..|o.invoices|] == o.invoices
            && CallerOf(after, c).invoice == after.invoices[|o.invoices|]
            && Prints(CallerOf(after, c).invoice.number, "QC", caller.year, LastValue(o, caller.year) + 1))
      && caller.year !in after.lockedBy
  {
    hide FormatSequentialReference;
    hide Prints;
    hide InSeries;
    hide OnePerCampaign;
    hide InYear;
    FormatsExactlyWhen("QC", CallerOf(o, c).year, CallerOf(o, c).value);
  }

  ghost predicate LocksAreHeld(o: Office) {
    forall year :: year in o.lockedBy ==> IsIn(o, o.lockedBy[year], year)
  }

  // The caller is inside a transaction on the series of that year.
  predicate IsIn(o: Office, c: nat, year: int) {
    CallerOf(o, c).Allocated? && CallerOf(o, c).year == year
  }

  lemma StepHoldsLocks(o: Office, e: Event)
    requires Sound(o) && LocksAreHeld(o)
    ensures LocksAreHeld(Apply(o, e))
  {
    hide FormatSequentialReference;
    hide FindByCampaign;
    hide InSeries;
    hide OnePerCampaign;
    hide Billing.ComputeInvoiceAmounts;
    var after := Apply(o, e);
    forall year | year in after.lockedBy ensures IsIn(after, after.lockedBy[year], year) {
      if year in o.lockedBy {
        assert IsIn(o, o.lockedBy[year], year);
      }
    }
  }

  lemma {:induction false} RunsHoldLocks(events: seq<Event>)
    ensures LocksAreHeld(Run(events))
  {
    hide Apply;
    hide Sound;
    if events != [] {
      RunsHoldLocks(events[..|events| - 1]);
      RunsAreSound(events[..|events| - 1]);
      StepHoldsLocks(Run(events[..|events| - 1]), events[|events| - 1]);
    }
  }

  // In every run a series is locked exactly while one caller is inside a
  // transaction on it: commit, rollback and crash all let it go.
  lemma SeriesIsLockedExactlyWhen(events: seq<Event>, year: int)
    ensures year in Run(events).lockedBy <==> exists c :: IsIn(Run(events), c, year)
    ensures forall c, d :: IsIn(Run(events), c, year) && IsIn(Run(events), d, year) ==> c == d
  {
    hide Run;
    hide InSeries;
    hide OnePerCampaign;
    RunsAreSound(events);
    RunsHoldLocks(events);
    var o := Run(events);
    if year in o.lockedBy {
      assert IsIn(o, o.lockedBy[year], year);
    }
  }

  // ── Gap-free, single, shared ──────────────────────────────────────

  lemma {:induction false} InYearGrows(invoices: seq<Invoice>, i: nat, j: nat)
    requires i < j <= |invoices|
    ensures InYear(invoices[..i], invoices[i].year) < InYear(invoices[..j], invoices[i].year)
    decreases j
  {
    assert invoices[..j][..j - 1] == invoices[..j - 1];
    if i < j - 1 {
      InYearGrows(invoices, i, j - 1);
    }
  }

  lemma {:induction false} NumberIsTaken(invoices: seq<Invoice>, year: int, v: nat)
    requires InSeries(invoices) && 1 <= v <= InYear(invoices, year)
    ensures exists i :: 0 <= i < |invoices| && invoices[i].year == year && invoices[i].value == v
  {
    hide FormatSequentialReference;
    var n := |invoices| - 1;
    var last := invoices[n];
    if !(last.year == year && last.value == v) {
      assert forall i :: 0 <= i < n ==> invoices[..n][..i] == invoices[..i];
      NumberIsTaken(invoices[..n], year, v);
      var i :| 0 <= i < n && invoices[..n][i].year == year && invoices[..n][i].value == v;
      assert invoices[i].year == year;
    }
  }

  // In every reachable state, after any interleaving of callers, commits,
  // rollbacks and crashes, the numbers of a year are exactly 1 to its last
  // value, each on one invoice, and no printed number occurs twice.
  lemma NumbersAreGapFree(events: seq<Event>, year: int, v: int)
    ensures
      var o := Run(events);
      1 <= v <= LastValue(o, year) <==>
        exists i :: 0 <= i < |o.invoices| && o.invoices[i].year == year && o.invoices[i].value == v
  {
    hide Run;
    hide FormatSequentialReference;
    var o := Run(events);
    RunsAreSound(events);
    if 1 <= v <= LastValue(o, year) {
      NumberIsTaken(o.invoices, year, v);
    }
    if i :| 0 <= i < |o.invoices| && o.invoices[i].year == year && o.invoices[i].value == v {
      InYearGrows(o.invoices, i, |o.invoices|);
      assert o.invoices[..|o.invoices|] == o.invoices;
    }
  }

  lemma NumbersNeverRepeat(events: seq<Event>, i: nat, j: nat)
    requires i < j < |Run(events).invoices|
    ensures
      var a, b := Run(events).invoices[i], Run(events).invoices[j];
      && a.number != b.number && a.campaignId != b.campaignId
      && (a.year == b.year ==> a.value < b.value)
  {
    hide Run;
    hide FormatSequentialReference;
    RunsAreSound(events);
    var invoices := Run(events).invoices;
    var a, b := invoices[i], invoices[j];
    if a.year == b.year {
      InYearGrows(invoices, i, j);
    }
    if a.number == b.number {
      ReferencesAreInjective("QC", a.year, a.value, b.year, b.value);
    }
  }

  // Whoever is answered for a campaign is answered with the same invoice, however
  // the calls raced, and it stays in the table.
  lemma CallersShareTheInvoice(events: seq<Event>, later: seq<Event>, c: nat, d: nat)
    requires CallerOf(Run(events), c).Returned? && CallerOf(Run(events + later), d).Returned?
    requires CallerOf(Run(events), c).campaignId == CallerOf(Run(events + later), d).campaignId
    ensures CallerOf(Run(events), c).invoice == CallerOf(Run(events + later), d).invoice
  {
    hide Run;
    hide InSeries;
    RunsAreSound(events);
    RunsAreSound(events + later);
    InvoicesOnlyGrow(events, later);
    var invoices := Run(events + later).invoices;
    var a, b := CallerOf(Run(events), c).invoice, CallerOf(Run(events + later), d).invoice;
    var i :| 0 <= i < |Run(events).invoices| && Run(events).invoices[i] == a;
    var j :| 0 <= j < |invoices| && invoices[j] == b;
    assert invoices[i] == a;
  }

  lemma {:induction false} InvoicesOnlyGrow(events: seq<Event>, later: seq<Event>)
    ensures Run(events).invoices <= Run(events + later).invoices
  {
    hide Apply;
    hide Sound;
    if later == [] {
      assert events + later == events;
    } else {
      var n := |later| - 1;
      InvoicesOnlyGrow(events, later[..n]);
      assert (events + later)[..|events + later| - 1] == events + later[..n];
      RunsAreSound(events + later[..n]);
      StepKeepsSound(Run(events + later[..n]), later[n]);
    }
  }

  // ── What an invoice bills ─────────────────────────────────────────

  // The invoice is for the campaign, the year and the facts that the call read:
  // an approved campaign's price for every one of its recipients.
  predicate BillsFor(campaignId: nat, year: int, amounts: Billing.InvoiceAmounts, e: Event) {
    && e.Begin? && e.campaignId == campaignId && e.year == year
    && e.facts.found && e.facts.status == "approved" && e.facts.recipients > 0
    && e.facts.price.Some? && Billing.Bills(amounts, e.facts.price.value, e.facts.recipients)
  }

  predicate CarriesAmounts(c: Caller) {
    c.Prepared? || c.Allocated?
  }

  // Where a step gets a caller's amounts and the row of an invoice from.
  lemma StepOfTheAmounts(o: Office, e: Event, c: nat)
    requires CarriesAmounts(CallerOf(Apply(o, e), c))
    ensures
      var before, after := CallerOf(o, c), CallerOf(Apply(o, e), c);
      || BillsFor(after.campaignId, after.year, after.amounts, e)
      || (CarriesAmounts(before) && before.campaignId == after.campaignId && before.year == after.year
          && before.amounts == after.amounts)
  {
    hide Billing.ComputeInvoiceAmounts;
    hide Billing.Bills;
    hide FormatSequentialReference;
    hide FindByCampaign;
    if e.Begin? && e.facts.price.Some? {
      Billing.ComputedAmountsBill(e.facts.price.value, e.facts.recipients);
    }
  }

  lemma StepOfTheRows(o: Office, e: Event, i: nat)
    requires i < |Apply(o, e).invoices|
    ensures
      var after := Apply(o, e).invoices[i];
      || (i < |o.invoices| && o.invoices[i] == after)
      || (e.Finish? && CarriesAmounts(CallerOf(o, e.caller))
          && CallerOf(o, e.caller).campaignId == after.campaignId && CallerOf(o, e.caller).year == after.year
          && CallerOf(o, e.caller).amounts == after.amounts)
  {
    hide Billing.ComputeInvoiceAmounts;
    hide FormatSequentialReference;
    hide FindByCampaign;
  }

  lemma {:induction false} AmountsWereRead(events: seq<Event>, c: nat) returns (b: nat)
    requires CarriesAmounts(CallerOf(Run(events), c))
    ensures b < |events|
    ensures
      var caller := CallerOf(Run(events), c);
      BillsFor(caller.campaignId, caller.year, caller.amounts, events[b])
  {
    hide Apply;
    hide BillsFor;
    if events == [] {
      NobodyCarries(c);
      assert false;
    } else {
      var n := |events| - 1;
      StepOfTheAmounts(Run(events[..n]), events[n], c);
      var caller := CallerOf(Run(events), c);
      if BillsFor(caller.campaignId, caller.year, caller.amounts, events[n]) {
        b := n;
      } else {
        b := AmountsWereRead(events[..n], c);
      }
    }
  }

  // In every run an issued invoice goes back to a call that read its campaign as
  // approved, and bills what that call read.
  lemma {:induction false} InvoicesBillTheirCampaign(events: seq<Event>, i: nat) returns (b: nat)
    requires i < |Run(events).invoices|
    ensures b < |events|
    ensures
      var invoice := Run(events).invoices[i];
      BillsFor(invoice.campaignId, invoice.year, invoice.amounts, events[b])
  {
    hide Apply;
    hide BillsFor;
    hide CarriesAmounts;
    if events == [] {
      assert false;
    } else {
      var n := |events| - 1;
      StepOfTheRows(Run(events[..n]), events[n], i);
      if i < |Run(events[..n]).invoices| && Run(events[..n]).invoices[i] == Run(events).invoices[i] {
        b := InvoicesBillTheirCampaign(events[..n], i);
      } else {
        b := AmountsWereRead(events[..n], events[n].caller);
      }
    }
  }

  lemma NobodyCarries(c: nat)
    ensures !CarriesAmounts(CallerOf(OPENING, c))
  {
  }
}
