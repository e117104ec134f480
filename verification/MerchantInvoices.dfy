// Recording the merchant's own legal invoice number
// (attachLegalReference in src/corporate/merchant-invoice.service.ts). The call
// reads the row and later writes it unconditionally, so reading and writing are
// two steps; a call on its own is both in a row.

module MerchantInvoices {
  import opened Wrappers
  import opened Text

  datatype LegalReference = LegalReference(
    number: Option<string>, externalId: Option<string>, url: Option<string>,
    source: string, authorization: Option<string>)

  datatype AttachInput = AttachInput(
    number: Option<string>, externalId: Option<string>, url: Option<string>,
    source: Option<string>, authorization: Option<string>)

  const MERCHANT_INVOICE_SOURCES: set<string> := {"MERCHANT", "ACCOUNTING_CONNECTOR", "QIFT_ON_BEHALF"}

  // A text that trims to nothing counts as absent.
  function Present(s: Option<string>): Option<string> {
    if s.Some? && !IsBlank(s.value) then Some(Trim(s.value)) else None
  }

  function TrimmedOr(s: Option<string>, current: Option<string>): Option<string> {
    if s.Some? then Some(Trim(s.value)) else current
  }

  predicate HasNumber(row: LegalReference) {
    row.number.Some? && row.number.value != ""
  }

  // What a call that has read `row` goes on to write.
  function AttachOf(row: LegalReference, input: AttachInput): Result<LegalReference> {
    var source := if input.source.Some? then Trim(input.source.value) else row.source;
    var authorization :=
      if Present(input.authorization).Some? then Present(input.authorization)
      else if row.authorization.Some? && row.authorization.value != "" then row.authorization
      else None;
    var number := Present(input.number);
    if source !in MERCHANT_INVOICE_SOURCES then Failure("invalid_invoice_number_source")
    else if source == "QIFT_ON_BEHALF" && authorization.None? then Failure("on_behalf_authorization_required")
    else if HasNumber(row) && number.Some? && number != row.number then Failure("merchant_invoice_number_immutable")
    else if HasNumber(row) && source != row.source then Failure("invoice_number_source_frozen")
    else Success(LegalReference(
      if row.number.Some? then row.number else number,
      TrimmedOr(input.externalId, row.externalId), TrimmedOr(input.url, row.url), source, authorization))
  }

  class MerchantInvoiceService {
    var rows: map<nat, LegalReference>

    constructor (rows: map<nat, LegalReference>)
      ensures this.rows == rows
    {
      this.rows := rows;
    }

    method AttachLegalReference(id: nat, input: AttachInput) returns (r: Result<LegalReference>)
      modifies this
      ensures r == if id in old(rows) then AttachOf(old(rows)[id], input) else Failure("merchant_invoice_not_found")
      ensures rows == if r.Success? then old(rows)[id := r.value] else old(rows)
    {
      if id !in rows {
        return Failure("merchant_invoice_not_found");
      }
      var row := rows[id];
      var source := if input.source.Some? then Trim(input.source.value) else row.source;
      if source !in MERCHANT_INVOICE_SOURCES {
        return Failure("invalid_invoice_number_source");
      }
      var authorization := Present(input.authorization);
      if authorization.None? && row.authorization.Some? && row.authorization.value != "" {
        authorization := row.authorization;
      }
      if source == "QIFT_ON_BEHALF" && authorization.None? {
        return Failure("on_behalf_authorization_required");
      }
      var number := Present(input.number);
      if HasNumber(row) {
        if number.Some? && number != row.number {
          return Failure("merchant_invoice_number_immutable");
        }
        if source != row.source {
          return Failure("invoice_number_source_frozen");
        }
      }
      var updated := LegalReference(
        if row.number.Some? then row.number else number,
        TrimmedOr(input.externalId, row.externalId), TrimmedOr(input.url, row.url), source, authorization);
      rows := rows[id := updated];
      r := Success(updated);
    }
  }

  // Who issues the number: what is asked for, or what was on file.
  function SourceAsked(row: LegalReference, input: AttachInput): string {
    match input.source case None => row.source case Some(source) => Trim(source)
  }

  predicate HasText(s: Option<string>) {
    s.Some? && s.value != ""
  }

  // A column is overwritten exactly if something was given for it.
  predicate Overwrites(given: Option<string>, before: Option<string>, after: Option<string>) {
    match given case None => after == before case Some(text) => after == Some(Trim(text))
  }

  // A legal reference is attached exactly if its source is one of the three, a
  // mandate is given or on file where it is issued on the merchant's behalf, and a
  // number on file is neither replaced by another nor said to come from elsewhere;
  // and then each column holds what was given for it, the number only if there was
  // none.
  lemma AttachesExactlyWhen(row: LegalReference, input: AttachInput)
    ensures
      var r, source := AttachOf(row, input), SourceAsked(row, input);
      && (r.Success? <==>
            && source in {"MERCHANT", "ACCOUNTING_CONNECTOR", "QIFT_ON_BEHALF"}
            && (source == "QIFT_ON_BEHALF" ==> Shows(input.authorization) || HasText(row.authorization))
            && (HasText(row.number) ==>
                  && source == row.source
                  && (Shows(input.number) ==> Some(Trim(input.number.value)) == row.number)))
      && (r.Success? ==>
            && r.value.source == source
            && (if row.number.Some? then r.value.number == row.number else Keeps(input.number, r.value.number))
            && Overwrites(input.externalId, row.externalId, r.value.externalId)
            && Overwrites(input.url, row.url, r.value.url)
            && (if Shows(input.authorization) then Keeps(input.authorization, r.value.authorization)
                else if HasText(row.authorization) then r.value.authorization == row.authorization
                else r.value.authorization.None?))
  {
    hide Trim;
  }

  // ── Runs of overlapping calls on one row ──────────────────────────

  // A call in flight remembers the row it read.
  datatype Desk = Desk(row: LegalReference, read: map<nat, LegalReference>)

  datatype Step = Read(call: nat) | Write(call: nat, input: AttachInput)

  function Apply(d: Desk, s: Step): Desk {
    match s
    case Read(c) => d.(read := d.read[c := d.row])
    case Write(c, input) =>
      if c !in d.read then d
      else
        var written := AttachOf(d.read[c], input);
        Desk(if written.Success? then written.value else d.row, d.read - {c})
  }

  function Run(d: Desk, steps: seq<Step>): Desk {
    if steps == [] then d else Apply(Run(d, steps[..|steps| - 1]), steps[|steps| - 1])
  }

  // The mandate is always on file for numbers issued on the merchant's behalf.
  predicate Mandated(row: LegalReference) {
    row.source == "QIFT_ON_BEHALF" ==> row.authorization.Some? && row.authorization.value != ""
  }

  // In every interleaving, even of stale writes, a row issued on the merchant's
  // behalf carries its mandate.
  lemma {:induction false} MandateIsAlwaysOnFile(d: Desk, steps: seq<Step>)
    requires Mandated(d.row) && forall c :: c in d.read ==> Mandated(d.read[c])
    ensures Mandated(Run(d, steps).row) && forall c :: c in Run(d, steps).read ==> Mandated(Run(d, steps).read[c])
  {
    if steps != [] {
      MandateIsAlwaysOnFile(d, steps[..|steps| - 1]);
    }
  }

  // What every row satisfies: its source is one of the three, a number is not
  // empty, and an invoice issued on the merchant's behalf has its mandate.
  predicate Sound(row: LegalReference) {
    row.source in MERCHANT_INVOICE_SOURCES && Mandated(row) && (row.number.Some? ==> HasNumber(row))
  }

  ghost predicate SoundDesk(d: Desk) {
    Sound(d.row) && forall c :: c in d.read ==> Sound(d.read[c])
  }

  lemma WriteIsSound(read: LegalReference, input: AttachInput)
    requires Sound(read) && AttachOf(read, input).Success?
    ensures Sound(AttachOf(read, input).value)
  {
  }

  // In every interleaving rows stay sound, the one on file and those read.
  lemma {:induction false} RowsStaySound(d: Desk, steps: seq<Step>)
    requires SoundDesk(d)
    ensures SoundDesk(Run(d, steps))
  {
    hide AttachOf;
    hide Sound;
    if steps != [] {
      var before, s := Run(d, steps[..|steps| - 1]), steps[|steps| - 1];
      RowsStaySound(d, steps[..|steps| - 1]);
      if s.Write? && s.call in before.read && AttachOf(before.read[s.call], s.input).Success? {
        WriteIsSound(before.read[s.call], s.input);
      }
    }
  }

  // The legal number and who issued it.
  predicate SameLegal(a: LegalReference, b: LegalReference) {
    a.number == b.number && a.source == b.source
  }

  ghost predicate AllAgree(d: Desk) {
    forall c :: c in d.read ==> SameLegal(d.read[c], d.row)
  }

  lemma StepKeepsTheNumber(d: Desk, s: Step)
    requires HasNumber(d.row) && AllAgree(d)
    ensures HasNumber(Apply(d, s).row) && SameLegal(Apply(d, s).row, d.row) && AllAgree(Apply(d, s))
  {
    if s.Write? && s.call in d.read {
      assert SameLegal(d.read[s.call], d.row);
    }
  }

  // Once a number is on file and every call in flight has read it, no schedule of
  // these and any later calls, however they overlap, changes it or its source.
  lemma {:induction false} NumberIsImmutable(d: Desk, steps: seq<Step>)
    requires HasNumber(d.row) && AllAgree(d)
    ensures SameLegal(Run(d, steps).row, d.row) && AllAgree(Run(d, steps)) && HasNumber(Run(d, steps).row)
  {
    hide Apply;
    hide AllAgree;
    if steps != [] {
      NumberIsImmutable(d, steps[..|steps| - 1]);
      StepKeepsTheNumber(Run(d, steps[..|steps| - 1]), steps[|steps| - 1]);
    }
  }

  const NOTHING := AttachInput(None, None, None, None, None)

  // What a call that has read a disagreeing row may still be asked to write.
  function Replacement(row: LegalReference, read: LegalReference): AttachInput {
    if read.number.Some? then NOTHING
    else NOTHING.(number := Some(if row.number == Some("A") then "B" else "A"))
  }

  lemma LettersArePresent()
    ensures Present(Some("A")) == Some("A") && Present(Some("B")) == Some("B")
  {
  }

  lemma DisagreeingCallReplaces(row: LegalReference, read: LegalReference)
    requires Sound(row) && Sound(read) && HasNumber(row) && !SameLegal(read, row)
    ensures
      var written := AttachOf(read, Replacement(row, read));
      written.Success? && !SameLegal(written.value, row)
  {
    LettersArePresent();
  }

  // Exactly then: a number on file, and its source, survive every schedule if and
  // only if every call in flight read that number and source. One that did not
  // has an input under which its write replaces them.
  lemma NumberIsImmutableExactlyWhen(d: Desk)
    requires SoundDesk(d) && HasNumber(d.row)
    ensures (forall steps: seq<Step> :: SameLegal(Run(d, steps).row, d.row)) <==> AllAgree(d)
  {
    hide AttachOf;
    if AllAgree(d) {
      forall steps: seq<Step> ensures SameLegal(Run(d, steps).row, d.row) {
        NumberIsImmutable(d, steps);
      }
    } else {
      var c :| c in d.read && !SameLegal(d.read[c], d.row);
      DisagreeingCallReplaces(d.row, d.read[c]);
      var write := Write(c, Replacement(d.row, d.read[c]));
      assert [write][..0] == [];
      assert Run(d, [write]) == Apply(d, write);
      assert !SameLegal(Run(d, [write]).row, d.row);
    }
  }

  // Two overlapping first attachments: the later write replaces the number the
  // earlier one put on file.
  lemma OverlappingCallsMayRenumber()
    ensures
      var blank := LegalReference(None, None, None, "MERCHANT", None);
      var a := AttachInput(Some("A"), None, None, None, None);
      var b := AttachInput(Some("B"), None, None, None, None);
      var first := Run(Desk(blank, map[]), [Read(0), Read(1), Write(0, a)]);
      var second := Apply(first, Write(1, b));
      first.row.number == Some("A") && second.row.number == Some("B")
  {
    var blank := LegalReference(None, None, None, "MERCHANT", None);
    var a := AttachInput(Some("A"), None, None, None, None);
    var d := Desk(blank, map[]);
    assert [Read(0), Read(1)][..1] == [Read(0)] && [Read(0)][..0] == [];
    assert [Read(0), Read(1), Write(0, a)][..2] == [Read(0), Read(1)];
    var d2 := Run(d, [Read(0), Read(1)]);
    assert d2 == Desk(blank, map[0 := blank, 1 := blank]);
  }
}
