// Header policy and row validation of a roster upload
// (src/corporate/roster-csv.ts, planHeaders and parseRoster).

module RosterCsv {
  import opened Wrappers
  import opened Text

  const MAX_CSV_BYTES := 512 * 1024
  const MAX_ROSTER_ROWS := 2000

  // ── Header policy ─────────────────────────────────────────────────

  datatype RosterField = FullName | Email | PhoneNumber | Department | EmployeeRef

  predicate IsSeparator(c: char) {
    IsWhitespace(c) || c == '_' || c == '-'
  }

  // Every run of separators becomes one space.
  function Collapse(s: string): string {
    if s == "" then ""
    else if !IsSeparator(s[0]) then [s[0]] + Collapse(s[1..])
    else if |s| > 1 && IsSeparator(s[1]) then Collapse(s[1..])
    else " " + Collapse(s[1..])
  }

  function NormalizeHeader(h: string): string {
    Trim(Collapse(Lower(h)))
  }

  const NAME_ALIASES := {
    "name", "fullname", "full name", "employee name", "الاسم", "اسم الموظف", "الاسم الكامل"}
  const EMAIL_ALIASES := {
    "email", "email address", "work email", "البريد", "البريد الإلكتروني", "البريد الالكتروني",
    "ايميل", "إيميل"}
  const PHONE_ALIASES := {
    "phone", "mobile", "phone number", "mobile number", "جوال", "الجوال", "رقم الجوال", "الهاتف",
    "رقم الهاتف"}
  const DEPARTMENT_ALIASES := {"department", "dept", "team", "القسم", "الإدارة", "الادارة"}
  const EMPLOYEE_REF_ALIASES := {
    "employee id", "employeeid", "employee ref", "staff id", "الرقم الوظيفي", "رقم الموظف"}

  const FORBIDDEN_HEADER_FRAGMENTS := [
    "address", "street", "city", "district", "region", "postal", "zip", "po box", "pobox",
    "location", "building", "apartment", "villa", "عنوان", "العنوان", "شارع", "مدينة",
    "المدينة", "حي", "الحي", "منطقة", "المنطقة", "رمز بريدي", "الرمز البريدي", "صندوق بريد",
    "موقع", "مبنى", "شقة", "فيلا"]

  function AliasOf(norm: string): Option<RosterField> {
    if norm in NAME_ALIASES then Some(FullName)
    else if norm in EMAIL_ALIASES then Some(Email)
    else if norm in PHONE_ALIASES then Some(PhoneNumber)
    else if norm in DEPARTMENT_ALIASES then Some(Department)
    else if norm in EMPLOYEE_REF_ALIASES then Some(EmployeeRef)
    else None
  }

  // What one header cell is: blank, address-like, the name of a field, or
  // something the roster has no use for.
  datatype Kind = Blank | AddressLike | Names(field: RosterField) | Unknown

  function KindOf(header: string): Kind {
    var norm := NormalizeHeader(header);
    if norm == "" then Blank
    else if exists f :: f in FORBIDDEN_HEADER_FRAGMENTS && Contains(norm, f) then AddressLike
    else
      match AliasOf(norm)
      case Some(field) => Names(field)
      case None => Unknown
  }

  datatype Column = Column(kind: Kind, title: string)

  function Classify(headers: seq<string>): (row: seq<Column>)
    ensures |row| == |headers|
    ensures forall i :: 0 <= i < |headers| ==> row[i] == Column(KindOf(headers[i]), Trim(headers[i]))
  {
    seq(|headers|, i requires 0 <= i < |headers| => Column(KindOf(headers[i]), Trim(headers[i])))
  }

  type Columns = map<RosterField, nat>

  datatype HeaderPlan =
    | Plan(columns: Columns, ignored: seq<string>)
    | AddressColumnsForbidden(offenders: seq<string>)
    | HeadersUnusable

  // The headers that make the whole file unacceptable, in order.
  function Offenders(row: seq<Column>): seq<string> {
    if row == [] then []
    else
      var n := |row| - 1;
      Offenders(row[..n]) + if row[n].kind.AddressLike? then [row[n].title] else []
  }

  // The first column of each field, and the columns left unused.
  function Assigned(row: seq<Column>): (Columns, seq<string>) {
    if row == [] then (map[], [])
    else
      var n := |row| - 1;
      var (columns, ignored) := Assigned(row[..n]);
      match row[n].kind
      case Blank => (columns, ignored)
      case AddressLike => (columns, ignored)
      case Names(field) =>
        if field in columns then (columns, ignored + [row[n].title]) else (columns[field := n], ignored)
      case Unknown => (columns, ignored + [row[n].title])
  }

  predicate Usable(columns: Columns) {
    FullName in columns && (Email in columns || PhoneNumber in columns)
  }

  function PlanOf(row: seq<Column>): HeaderPlan {
    var (columns, ignored) := Assigned(row);
    if Offenders(row) != [] then AddressColumnsForbidden(Offenders(row))
    else if !Usable(columns) then HeadersUnusable
    else Plan(columns, ignored)
  }

  method PlanHeaders(headers: seq<string>) returns (plan: HeaderPlan)
    ensures plan == PlanOf(Classify(headers))
  {
    ghost var row := Classify(headers);
    var forbidden, columns, ignored := [], map[], [];
    var idx := 0;
    while idx < |headers|
      invariant 0 <= idx <= |headers|
      invariant forbidden == Offenders(row[..idx])
      invariant (columns, ignored) == Assigned(row[..idx])
    {
      assert row[..idx + 1][..idx] == row[..idx];
      var kind, title := KindOf(headers[idx]), Trim(headers[idx]);
      if kind.AddressLike? {
        forbidden := forbidden + [title];
      } else if kind.Names? && kind.field !in columns {
        columns := columns[kind.field := idx];
      } else if !kind.Blank? {
        ignored := ignored + [title];
      }
      idx := idx + 1;
    }
    assert row[..idx] == row;
    if |forbidden| > 0 {
      return AddressColumnsForbidden(forbidden);
    }
    if !Usable(columns) {
      return HeadersUnusable;
    }
    return Plan(columns, ignored);
  }

  lemma {:induction false} OffendersExactlyForbidden(row: seq<Column>)
    ensures Offenders(row) == [] <==> forall i :: 0 <= i < |row| ==> !row[i].kind.AddressLike?
  {
    if row != [] {
      OffendersExactlyForbidden(row[..|row| - 1]);
    }
  }

  ghost predicate Named(row: seq<Column>, f: RosterField) {
    exists i :: 0 <= i < |row| && row[i].kind == Names(f)
  }

  ghost predicate FirstNamed(row: seq<Column>, f: RosterField, k: nat) {
    k < |row| && row[k].kind == Names(f) && forall i :: 0 <= i < k ==> row[i].kind != Names(f)
  }

  lemma {:induction false} AssignedIsFirst(row: seq<Column>, f: RosterField)
    ensures f in Assigned(row).0 <==> Named(row, f)
    ensures f in Assigned(row).0 ==> FirstNamed(row, f, Assigned(row).0[f])
  {
    if row != [] {
      var n := |row| - 1;
      AssignedIsFirst(row[..n], f);
      if Named(row[..n], f) {
        var i :| 0 <= i < n && row[..n][i].kind == Names(f);
        assert row[i].kind == Names(f);
      }
      if Named(row, f) && row[n].kind != Names(f) {
        var i :| 0 <= i < |row| && row[i].kind == Names(f);
        assert row[..n][i].kind == Names(f);
      }
    }
  }

  // The privacy gate: a file is refused for address columns exactly when some
  // header looks like an address; otherwise it is planned exactly when the
  // name and some channel are identifiable, and each field is read from the
  // first column that names it.
  lemma PlanIsThePrivacyGate(row: seq<Column>)
    ensures PlanOf(row).AddressColumnsForbidden? <==>
      exists i :: 0 <= i < |row| && row[i].kind.AddressLike?
    ensures PlanOf(row).Plan? <==>
      && (forall i :: 0 <= i < |row| ==> !row[i].kind.AddressLike?)
      && Named(row, FullName) && (Named(row, Email) || Named(row, PhoneNumber))
    ensures PlanOf(row).Plan? ==>
      && (forall f :: f in PlanOf(row).columns <==> Named(row, f))
      && (forall f :: f in PlanOf(row).columns ==> FirstNamed(row, f, PlanOf(row).columns[f]))
  {
    OffendersExactlyForbidden(row);
    forall f: RosterField
      ensures f in Assigned(row).0 <==> Named(row, f)
      ensures f in Assigned(row).0 ==> FirstNamed(row, f, Assigned(row).0[f])
    {
      AssignedIsFirst(row, f);
    }
  }
}
