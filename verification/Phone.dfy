// Canonical phone numbers (src/auth/phone-normalize.ts).

module Phone {
  import opened Seqs
  import opened Text
  import opened Wrappers

  datatype Country = SA | AE | KW | QA | BH | OM

  const COUNTRIES := [SA, AE, KW, QA, BH, OM]

  function Dial(c: Country): string {
    match c
    case SA => "966"
    case AE => "971"
    case KW => "965"
    case QA => "974"
    case BH => "973"
    case OM => "968"
  }

  predicate AllDigits(s: string) {
    forall i :: 0 <= i < |s| ==> IsDigit(s[i])
  }

  // The local part of a mobile number, per country.
  predicate MobileLocal(c: Country, local: string) {
    match c
    case SA => |local| == 9 && AllDigits(local) && local[0] == '5'
    case AE => |local| == 9 && AllDigits(local) && local[0] == '5'
    case KW => |local| == 8 && AllDigits(local) && (local[0] == '5' || local[0] == '6' || local[0] == '9')
    case QA => |local| == 8 && AllDigits(local) && (local[0] == '3' || '5' <= local[0] <= '7')
    case BH => |local| == 8 && AllDigits(local) && (local[0] == '3' || local[0] == '6')
    case OM => |local| == 8 && AllDigits(local) && (local[0] == '7' || local[0] == '9')
  }

  // A plus and 8 to 15 digits, the first of them not zero.
  predicate IsE164(s: string) {
    9 <= |s| <= 16 && s[0] == '+' && s[1] != '0' && AllDigits(s[1..])
  }

  function Digits(s: string): (d: string)
    ensures AllDigits(d)
  {
    if s == "" then ""
    else
      var n := |s| - 1;
      Digits(s[..n]) + if IsDigit(s[n]) then [s[n]] else ""
  }

  // What is left of the input: its digits, after a plus if it had one anywhere.
  function Stripped(raw: string): string {
    (if '+' in raw then "+" else "") + Digits(raw)
  }

  function WithoutLeadingZeros(s: string): string {
    if s != "" && s[0] == '0' then WithoutLeadingZeros(s[1..]) else s
  }

  // The supported country whose dial code the digits start with.
  function CountryOf(digits: string): Option<Country> {
    if |digits| < 3 then None
    else
      match digits[..3]
      case "966" => Some(SA)
      case "971" => Some(AE)
      case "965" => Some(KW)
      case "974" => Some(QA)
      case "973" => Some(BH)
      case "968" => Some(OM)
      case _ => None
  }

  lemma EveryCountryIsListed(c: Country)
    ensures c in COUNTRIES
  {
    assert COUNTRIES[0] == SA && COUNTRIES[1] == AE && COUNTRIES[2] == KW;
    assert COUNTRIES[3] == QA && COUNTRIES[4] == BH && COUNTRIES[5] == OM;
  }

  lemma CountryOfIsDialPrefix(digits: string, c: Country)
    ensures CountryOf(digits) == Some(c) <==> StartsWith(digits, Dial(c))
  {
    if |digits| >= 3 {
      assert StartsWith(digits, Dial(c)) <==> digits[..3] == Dial(c);
    }
  }

  function IfE164(s: string): Option<string> {
    if IsE164(s) then Some(s) else None
  }

  // A zero right after a known country code, as in +9660501234567.
  predicate HasRogueZero(international: string)
    requires international != ""
  {
    CountryOf(international[1..]).Some? && |international| > 4 && international[4] == '0'
  }

  function FromInternational(s: string): Option<string>
    requires s != ""
  {
    IfE164(if HasRogueZero(s) then s[..4] + s[5..] else s)
  }

  function FromDigits(s: string, defaultCountry: Country): Option<string> {
    if CountryOf(s).Some? then IfE164("+" + s[..3] + WithoutLeadingZeros(s[3..]))
    else
      var local := WithoutLeadingZeros(s);
      if local == "" then None else IfE164("+" + Dial(defaultCountry) + local)
  }

  function NormalizePhone(raw: Option<string>, defaultCountry: Country): (e164: Option<string>)
    ensures e164.Some? ==> IsE164(e164.value)
  {
    if raw.None? || raw.value == "" then None
    else
      var s := Stripped(raw.value);
      if s == "" then None
      else if StartsWith(s, "00") then FromInternational("+" + s[2..])
      else if s[0] == '+' then FromInternational(s)
      else FromDigits(s, defaultCountry)
  }

  datatype MobileCheck = Mobile | PhoneInvalid | PhoneNotMobile

  function ValidateMobile(e164: Option<string>, country: Option<Country>): MobileCheck {
    if e164.None? || !IsE164(e164.value) then PhoneInvalid
    else
      var detected := if country.Some? then country else CountryOf(e164.value[1..]);
      if detected.None? then Mobile
      else if MobileLocal(detected.value, e164.value[4..]) then Mobile
      else PhoneNotMobile
  }

  // So many digits follow the dial code, the first of them one of these.
  predicate GoesOn(s: string, dial: string, count: nat, first: set<char>) {
    StartsWith(s, dial) ==> count > 0 && |s| == |dial| + count && s[|dial|] in first
  }

  // A number passes the mobile check exactly if it is a plus and 8 to 15 digits
  // that do not begin with zero, and in the six known countries a mobile of that
  // country; any other country's number passes.
  lemma MobileExactlyWhen(s: string)
    ensures ValidateMobile(Some(s), None) == Mobile <==>
      && 9 <= |s| <= 16 && s[0] == '+' && s[1] != '0' && AllDigits(s[1..])
      && GoesOn(s, "+966", 9, {'5'}) && GoesOn(s, "+971", 9, {'5'})
      && GoesOn(s, "+965", 8, {'5', '6', '9'}) && GoesOn(s, "+974", 8, {'3', '5', '6', '7'})
      && GoesOn(s, "+973", 8, {'3', '6'}) && GoesOn(s, "+968", 8, {'7', '9'})
  {
    if IsE164(s) {
      var local := s[4..];
      assert AllDigits(local);
      forall c: Country ensures CountryOf(s[1..]) == Some(c) <==> StartsWith(s, "+" + Dial(c)) {
        CountryOfIsDialPrefix(s[1..], c);
        DialStarts(s, c);
      }
      DialsWithPlus();
      OneDialAtMost(s);
      hide StartsWith;
      hide CountryOf;
    }
  }

  lemma OneDialAtMost(s: string)
    requires |s| >= 4
    ensures forall c, d :: StartsWith(s, "+" + Dial(c)) && StartsWith(s, "+" + Dial(d)) ==> c == d
  {
    forall c, d | StartsWith(s, "+" + Dial(c)) && StartsWith(s, "+" + Dial(d)) ensures c == d {
      assert s[2] == Dial(c)[1] == Dial(d)[1] && s[3] == Dial(c)[2] == Dial(d)[2];
    }
  }

  lemma DialStarts(s: string, c: Country)
    requires s != "" && s[0] == '+'
    ensures StartsWith(s, "+" + Dial(c)) <==> StartsWith(s[1..], Dial(c))
  {
    if StartsWith(s[1..], Dial(c)) {
      assert s == "+" + s[1..];
    }
  }

  lemma DialsWithPlus()
    ensures "+" + Dial(SA) == "+966" && "+" + Dial(AE) == "+971" && "+" + Dial(KW) == "+965"
    ensures "+" + Dial(QA) == "+974" && "+" + Dial(BH) == "+973" && "+" + Dial(OM) == "+968"
  {
  }

  // ── The two loops over the dial codes ─────────────────────────────

  method FindDial(digits: string) returns (found: Option<Country>)
    ensures found == CountryOf(digits)
  {
    var k := 0;
    while k < |COUNTRIES|
      invariant 0 <= k <= |COUNTRIES|
      invariant forall j :: 0 <= j < k ==> CountryOf(digits) != Some(COUNTRIES[j])
    {
      CountryOfIsDialPrefix(digits, COUNTRIES[k]);
      if StartsWith(digits, Dial(COUNTRIES[k])) {
        return Some(COUNTRIES[k]);
      }
      k := k + 1;
    }
    forall c: Country
      ensures CountryOf(digits) != Some(c)
    {
      EveryCountryIsListed(c);
    }
    return None;
  }

  // Step by step as the service rewrites the number.
  method Normalize(raw: Option<string>, defaultCountry: Country) returns (e164: Option<string>)
    ensures e164 == NormalizePhone(raw, defaultCountry)
  {
    if raw.None? || raw.value == "" {
      return None;
    }
    var s := Stripped(raw.value);
    if s == "" {
      return None;
    }
    if StartsWith(s, "00") {
      s := "+" + s[2..];
    }
    if s[0] == '+' {
      var candidate := s;
      var dial := FindDial(s[1..]);
      if dial.Some? && |s| > 4 && s[4] == '0' {
        candidate := s[..4] + s[5..];
      }
      return IfE164(candidate);
    }
    var dial := FindDial(s);
    if dial.Some? {
      var rest := s[3..];
      if rest != "" && rest[0] == '0' {
        rest := WithoutLeadingZeros(rest);
      }
      CountryOfIsDialPrefix(s, dial.value);
      assert s[..3] == Dial(dial.value);
      return IfE164("+" + Dial(dial.value) + rest);
    }
    var localDigits := WithoutLeadingZeros(s);
    if localDigits == "" {
      return None;
    }
    return IfE164("+" + Dial(defaultCountry) + localDigits);
  }

  // ── Canonical forms ───────────────────────────────────────────────

  lemma {:induction false} DigitsOfDigits(s: string)
    requires AllDigits(s)
    ensures Digits(s) == s
  {
    if s != "" {
      DigitsOfDigits(s[..|s| - 1]);
      SplitLast(s);
    }
  }

  lemma {:induction false} DigitsConcat(a: string, b: string)
    ensures Digits(a + b) == Digits(a) + Digits(b)
  {
    if b == "" {
      assert a + b == a;
    } else {
      var n := |b| - 1;
      assert (a + b)[..|a| + n] == a + b[..n];
      DigitsConcat(a, b[..n]);
      Assoc(Digits(a), Digits(b[..n]), if IsDigit(b[n]) then [b[n]] else "");
    }
  }

  lemma StrippedE164(e: string)
    requires IsE164(e)
    ensures Stripped(e) == e
  {
    assert e == "+" + e[1..];
    DigitsConcat("+", e[1..]);
    DigitsOfDigits(e[1..]);
    assert Digits("+") == "" by {
      assert "+"[..0] == "";
    }
  }

  lemma OnInternational(e: string, defaultCountry: Country)
    requires IsE164(e)
    ensures NormalizePhone(Some(e), defaultCountry) == FromInternational(e)
  {
    StrippedE164(e);
  }

  lemma OnDigits(s: string, defaultCountry: Country)
    requires s != "" && AllDigits(s)
    ensures NormalizePhone(Some(s), defaultCountry) ==
      if StartsWith(s, "00") then FromInternational("+" + s[2..]) else FromDigits(s, defaultCountry)
  {
    DigitsOfDigits(s);
    EmptyLeft(s);
  }

  // Which numbers survive a second normalization: exactly those without a
  // rogue zero after a known country code.
  lemma FixedPoints(e: string, defaultCountry: Country)
    requires IsE164(e)
    ensures NormalizePhone(Some(e), defaultCountry) == Some(e) <==> !HasRogueZero(e)
  {
    OnInternational(e, defaultCountry);
    if HasRogueZero(e) {
      assert |e[..4] + e[5..]| < |e|;
    }
  }

  lemma MobileHasNoRogueZero(e: string)
    requires ValidateMobile(Some(e), None) == Mobile
    ensures !HasRogueZero(e)
  {
    assert |e| > 4 ==> e[4..][0] == e[4];
  }

  // So everything that also passes the mobile check is a fixed point: this is
  // the form the database holds.
  lemma ValidatedIsFixedPoint(raw: Option<string>, defaultCountry: Country)
    ensures
      var e := NormalizePhone(raw, defaultCountry);
      e.Some? && ValidateMobile(e, None) == Mobile ==> NormalizePhone(e, defaultCountry) == e
  {
    var e := NormalizePhone(raw, defaultCountry);
    if e.Some? && ValidateMobile(e, None) == Mobile {
      MobileHasNoRogueZero(e.value);
      FixedPoints(e.value, defaultCountry);
    }
  }

  // The number a country's local digits stand for.
  function International(c: Country, local: string): string {
    "+" + (Dial(c) + local)
  }

  lemma DialShape(c: Country, local: string)
    ensures |Dial(c)| == 3 && AllDigits(Dial(c)) && Dial(c)[0] == '9'
    ensures (Dial(c) + local)[..3] == Dial(c) && (Dial(c) + local)[3..] == local
    ensures CountryOf(Dial(c) + local) == Some(c)
    ensures International(c, local)[1..] == Dial(c) + local
  {
    assert (Dial(c) + local)[..3] == Dial(c);
  }

  lemma InternationalIsE164(c: Country, local: string)
    requires 5 <= |local| <= 12 && AllDigits(local)
    ensures IsE164(International(c, local))
    ensures HasRogueZero(International(c, local)) <==> local[0] == '0'
  {
    DialShape(c, local);
  }

  // One rogue zero is dropped.
  lemma RogueForm(c: Country, local: string, defaultCountry: Country)
    requires 5 <= |local| <= 11 && AllDigits(local)
    ensures NormalizePhone(Some(International(c, "0" + local)), defaultCountry) == Some(International(c, local))
  {
    var rogue := International(c, "0" + local);
    InternationalIsE164(c, "0" + local);
    InternationalIsE164(c, local);
    OnInternational(rogue, defaultCountry);
    DialShape(c, "0" + local);
    assert rogue[..4] == "+" + Dial(c);
    assert rogue[5..] == local;
    Assoc("+", Dial(c), local);
  }

  // So without the mobile check a stored number need not be a fixed point: a
  // second zero outlives the first pass.
  lemma NormalizeIsNotIdempotent(c: Country, local: string)
    requires 5 <= |local| <= 10 && AllDigits(local)
    ensures NormalizePhone(Some(International(c, "0" + ("0" + local))), SA) == Some(International(c, "0" + local))
    ensures NormalizePhone(Some(International(c, "0" + local)), SA) == Some(International(c, local))
    ensures International(c, local) != International(c, "0" + local)
    ensures ValidateMobile(Some(International(c, "0" + local)), None) == PhoneNotMobile
  {
    RogueForm(c, "0" + local, SA);
    RogueForm(c, local, SA);
    RogueIsNotMobile(c, local);
  }

  lemma RogueIsNotMobile(c: Country, local: string)
    requires 5 <= |local| <= 10 && AllDigits(local)
    ensures International(c, local) != International(c, "0" + local)
    ensures ValidateMobile(Some(International(c, "0" + local)), None) == PhoneNotMobile
  {
    DialShape(c, "0" + local);
    var e := International(c, "0" + local);
    InternationalIsE164(c, "0" + local);
    assert |International(c, local)| < |e|;
    assert e[4..][0] == '0';
  }

  // Spaces, dashes, brackets or any other separator anywhere make no difference.
  lemma SeparatorsAreIgnored(a: string, separator: string, b: string, defaultCountry: Country)
    requires forall i :: 0 <= i < |separator| ==> !IsDigit(separator[i]) && separator[i] != '+'
    ensures NormalizePhone(Some(a + separator + b), defaultCountry) == NormalizePhone(Some(a + b), defaultCountry)
  {
    StrippedIgnores(a, separator, b);
    if a + b == "" {
      assert Stripped(a + b) == "";
    }
  }

  lemma StrippedIgnores(a: string, separator: string, b: string)
    requires forall i :: 0 <= i < |separator| ==> !IsDigit(separator[i]) && separator[i] != '+'
    ensures Stripped(a + separator + b) == Stripped(a + b)
  {
    NoDigits(separator);
    DigitsConcat(a + separator, b);
    DigitsConcat(a, separator);
    DigitsConcat(a, b);
    EmptyRight(Digits(a));
    assert '+' !in separator;
    assert '+' in a + separator + b <==> '+' in a + b;
  }

  lemma {:induction false} NoDigits(s: string)
    requires forall i :: 0 <= i < |s| ==> !IsDigit(s[i])
    ensures Digits(s) == ""
  {
    if s != "" {
      NoDigits(s[..|s| - 1]);
    }
  }

  // Every international way of typing a mobile names the same number, whatever
  // the default country.
  lemma InternationalFormsAgree(c: Country, local: string, defaultCountry: Country)
    requires MobileLocal(c, local)
    ensures NormalizePhone(Some(International(c, local)), defaultCountry) == Some(International(c, local))
    ensures NormalizePhone(Some(Dial(c) + local), defaultCountry) == Some(International(c, local))
    ensures NormalizePhone(Some("00" + (Dial(c) + local)), defaultCountry) == Some(International(c, local))
    ensures NormalizePhone(Some(International(c, "0" + local)), defaultCountry) == Some(International(c, local))
  {
    var e := International(c, local);
    InternationalIsE164(c, local);
    OnInternational(e, defaultCountry);
    RogueForm(c, local, defaultCountry);
    DialForm(c, local, defaultCountry);
    PrefixForm(c, local, defaultCountry);
  }

  lemma DialForm(c: Country, local: string, defaultCountry: Country)
    requires MobileLocal(c, local)
    ensures NormalizePhone(Some(Dial(c) + local), defaultCountry) == Some(International(c, local))
  {
    DialShape(c, local);
    InternationalIsE164(c, local);
    OnDigits(Dial(c) + local, defaultCountry);
    Assoc("+", Dial(c), local);
  }

  lemma PrefixForm(c: Country, local: string, defaultCountry: Country)
    requires MobileLocal(c, local)
    ensures NormalizePhone(Some("00" + (Dial(c) + local)), defaultCountry) == Some(International(c, local))
  {
    var form := "00" + (Dial(c) + local);
    DialShape(c, local);
    InternationalIsE164(c, local);
    OnDigits(form, defaultCountry);
    assert form[..2] == "00" && form[2..] == Dial(c) + local;
  }

  // A mobile typed without its country, with or without the leading zero, is
  // filled in with the default country exactly when it does not itself begin
  // like a country code: never a problem for Saudi and Emirati mobiles, but
  // eight-digit mobiles such as Kuwaiti 966xxxxx are read as Saudi.
  lemma LocalForms(c: Country, local: string)
    requires MobileLocal(c, local)
    ensures NormalizePhone(Some("0" + local), c) == Some(International(c, local))
    ensures NormalizePhone(Some(local), c) == Some(International(c, local)) <==> CountryOf(local).None?
    ensures c.SA? || c.AE? ==> CountryOf(local).None?
  {
    LocalFormWithZero(c, local);
    BareForm(c, local);
    assert local[..3][0] == local[0];
  }

  lemma BareForm(c: Country, local: string)
    requires MobileLocal(c, local)
    ensures NormalizePhone(Some(local), c) == Some(International(c, local)) <==> CountryOf(local).None?
  {
    InternationalIsE164(c, local);
    OnDigits(local, c);
    if CountryOf(local).Some? {
      StripShrinks(local[3..]);
    } else {
      Assoc("+", Dial(c), local);
    }
  }

  lemma {:induction false} StripShrinks(s: string)
    ensures |WithoutLeadingZeros(s)| <= |s|
  {
    if s != "" {
      StripShrinks(s[1..]);
    }
  }

  lemma MobileShape(c: Country, local: string)
    requires MobileLocal(c, local)
    ensures 8 <= |local| <= 9 && AllDigits(local) && local[0] != '0'
  {
  }

  // No dial code begins with a zero.
  lemma NoCountryAfterZero(s: string)
    requires s != "" && s[0] == '0'
    ensures CountryOf(s).None?
  {
    if |s| >= 3 {
      assert s[..3][0] == '0';
    }
  }

  lemma LocalFormWithZero(c: Country, local: string)
    requires MobileLocal(c, local)
    ensures NormalizePhone(Some("0" + local), c) == Some(International(c, local))
  {
    hide MobileLocal;
    hide IsE164;
    hide CountryOf;
    hide NormalizePhone;
    var form := "0" + local;
    MobileShape(c, local);
    InternationalIsE164(c, local);
    OnDigits(form, c);
    NoCountryAfterZero(form);
    assert form[1..] == local && form[1] == local[0];
    assert WithoutLeadingZeros(form) == WithoutLeadingZeros(local) == local;
    Assoc("+", Dial(c), local);
  }

  lemma KuwaitiMobileReadAsSaudi()
    ensures MobileLocal(KW, "96612345")
    ensures NormalizePhone(Some("96612345"), KW) == Some("+96612345")
  {
    OnDigits("96612345", KW);
    assert "96612345"[..3] == "966" && "96612345"[3..] == "12345";
    assert WithoutLeadingZeros("12345") == "12345";
    assert "+" + "966" + "12345" == "+96612345";
    assert "+96612345"[1..] == "96612345";
  }
}
