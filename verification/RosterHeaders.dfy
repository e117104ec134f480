// Which header texts the upload refuses, and which name a field, on the texts
// themselves (planHeaders in src/corporate/roster-csv.ts): case does not matter,
// nor which and how many of white space, `_` and `-` stand between two words.

module RosterHeaders {
  import opened Wrappers
  import opened Text
  import opened RosterCsv

  // The text is this phrase but for case, with any run of separators where the
  // phrase has a space.
  predicate Spells(text: string, phrase: string)
    decreases |text|
  {
    if phrase == "" then text == ""
    else if text == "" then false
    else if phrase[0] == ' ' then
      IsSeparator(text[0]) &&
      (Spells(text[1..], phrase[1..]) || (|text| > 1 && IsSeparator(text[1]) && Spells(text[1..], phrase)))
    else LowerChar(text[0]) == phrase[0] && Spells(text[1..], phrase[1..])
  }

  ghost predicate Mentions(header: string, phrase: string) {
    exists i, j :: 0 <= i <= j <= |header| && Spells(header[i..j], phrase)
  }

  predicate AllSeparators(s: string) {
    forall i :: 0 <= i < |s| ==> IsSeparator(s[i])
  }

  // The header is the phrase, up to separators around it.
  ghost predicate IsHeader(header: string, phrase: string) {
    exists i: nat, j: nat :: IsHeaderAt(header, phrase, i, j)
  }

  predicate IsHeaderAt(header: string, phrase: string, i: nat, j: nat) {
    && i <= j <= |header|
    && AllSeparators(header[..i]) && Spells(header[i..j], phrase) && AllSeparators(header[j..])
  }

  // Words of small letters with one space between two.
  predicate IsPhrase(phrase: string) {
    && phrase != "" && phrase[0] != ' ' && phrase[|phrase| - 1] != ' '
    && (forall i :: 0 <= i < |phrase| ==> LowerChar(phrase[i]) == phrase[i])
    && (forall i :: 0 <= i < |phrase| && phrase[i] != ' ' ==> !IsSeparator(phrase[i]))
    && (forall i :: 0 <= i < |phrase| - 1 ==> !(phrase[i] == ' ' && phrase[i + 1] == ' '))
  }

  // ── Folding ───────────────────────────────────────────────────────

  // Collapse acts on two parts apart unless a run of separators crosses over.
  lemma {:induction false} CollapseConcat(a: string, b: string)
    requires a == "" || b == "" || !IsSeparator(a[|a| - 1]) || !IsSeparator(b[0])
    ensures Collapse(a + b) == Collapse(a) + Collapse(b)
  {
    if a == "" {
      assert a + b == b;
    } else if b == "" {
      assert a + b == a;
    } else {
      assert (a + b)[1..] == a[1..] + b;
      if |a| > 1 {
        assert a[1..][|a[1..]| - 1] == a[|a| - 1];
      }
      CollapseConcat(a[1..], b);
    }
  }

  lemma LowerConcat(a: string, b: string)
    ensures Lower(a + b) == Lower(a) + Lower(b)
  {
  }

  lemma LowerSeparates(c: char)
    ensures IsSeparator(LowerChar(c)) <==> IsSeparator(c)
  {
  }

  // What is left of a phrase from position k on.
  predicate IsRest(rest: string) {
    && (forall i :: 0 <= i < |rest| && rest[i] != ' ' ==> !IsSeparator(rest[i]))
    && (forall i :: 0 <= i < |rest| - 1 ==> !(rest[i] == ' ' && rest[i + 1] == ' '))
    && (rest != "" ==> rest[|rest| - 1] != ' ')
  }

  lemma RestOfRest(rest: string)
    requires rest != "" && IsRest(rest)
    ensures IsRest(rest[1..])
  {
  }

  // A text that spells a phrase folds to it.
  lemma {:induction false} SpelledFolds(text: string, rest: string)
    requires Spells(text, rest) && IsRest(rest)
    ensures Collapse(Lower(text)) == rest
    ensures text != "" && rest[0] == ' ' ==> IsSeparator(text[0])
    ensures text == "" <==> rest == ""
    decreases |text|
  {
    if rest != "" {
      RestOfRest(rest);
      LowerSeparates(text[0]);
      var low := Lower(text);
      assert low == [LowerChar(text[0])] + Lower(text[1..]) && low[1..] == Lower(text[1..]);
      if |text| > 1 {
        LowerSeparates(text[1]);
        assert low[1] == LowerChar(text[1]);
      }
      if rest[0] == ' ' {
        if Spells(text[1..], rest[1..]) {
          SpelledFolds(text[1..], rest[1..]);
          FirstFolds(text[1..], rest[1..]);
          assert rest == " " + rest[1..];
        } else {
          SpelledFolds(text[1..], rest);
        }
      } else {
        SpelledFolds(text[1..], rest[1..]);
        assert rest == [rest[0]] + rest[1..];
      }
    }
  }

  lemma FirstFolds(text: string, rest: string)
    requires Spells(text, rest) && rest != "" && rest[0] != ' ' && !IsSeparator(rest[0])
    ensures text != "" && !IsSeparator(text[0])
  {
    LowerSeparates(text[0]);
  }

  lemma {:induction false} CollapseStartsLikeARun(s: string)
    requires s != "" && IsSeparator(s[0])
    ensures Collapse(s) != "" && Collapse(s)[0] == ' '
  {
    if |s| > 1 && IsSeparator(s[1]) {
      CollapseStartsLikeARun(s[1..]);
    }
  }

  // A prefix of a folded text is spelled by a prefix of the text.
  lemma {:induction false} FoldedPrefix(text: string, phrase: string) returns (n: nat)
    requires phrase <= Collapse(Lower(text))
    ensures n <= |text| && Spells(text[..n], phrase)
    decreases |text|
  {
    n := 0;
    if phrase != "" {
      var low := Lower(text);
      assert text != "";
      assert low[1..] == Lower(text[1..]);
      LowerSeparates(text[0]);
      if |text| > 1 {
        LowerSeparates(text[1]);
      }
      if IsSeparator(text[0]) && |text| > 1 && IsSeparator(text[1]) {
        var m := FoldedPrefix(text[1..], phrase);
        n := m + 1;
        CollapseStartsLikeARun(low);
        FoldedRun(text, phrase, m);
      } else {
        assert phrase[1..] <= Collapse(Lower(text[1..]));
        var m := FoldedPrefix(text[1..], phrase[1..]);
        n := m + 1;
        assert text[..n][1..] == text[1..][..m] && text[..n][0] == text[0];
      }
    }
  }

  lemma FoldedRun(text: string, phrase: string, m: nat)
    requires |text| > 1 && IsSeparator(text[0]) && IsSeparator(text[1]) && m <= |text[1..]|
    requires phrase != "" && phrase[0] == ' ' && Spells(text[1..][..m], phrase)
    ensures Spells(text[..m + 1], phrase)
  {
    assert text[..m + 1][1..] == text[1..][..m];
    assert m > 0;
  }

  lemma OccursFurtherOn(first: string, rest: string, phrase: string, at: nat)
    requires |first| == 1 && at > 0 && OccursAt(first + rest, phrase, at)
    ensures OccursAt(rest, phrase, at - 1)
  {
    assert (first + rest)[at..at + |phrase|] == rest[at - 1..at - 1 + |phrase|];
  }

  lemma PartFurtherOn(text: string, i: nat, j: nat, phrase: string)
    requires text != "" && i <= j <= |text[1..]| && Spells(text[1..][i..j], phrase)
    ensures Spells(text[i + 1..j + 1], phrase)
  {
    assert text[1..][i..j] == text[i + 1..j + 1];
  }

  // How a text folds, one character at a time.
  lemma FoldsStepwise(text: string)
    requires text != ""
    ensures
      var rest := Collapse(Lower(text[1..]));
      Collapse(Lower(text)) == rest || exists c :: Collapse(Lower(text)) == [c] + rest
  {
    var low := Lower(text);
    assert low[1..] == Lower(text[1..]);
  }

  // Whatever a folded text contains is spelled somewhere in the text.
  lemma {:induction false} FoldedPart(text: string, phrase: string, at: nat) returns (i: nat, j: nat)
    requires phrase != "" && OccursAt(Collapse(Lower(text)), phrase, at)
    ensures i <= j <= |text| && Spells(text[i..j], phrase)
    decreases |text|
  {
    hide Spells;
    hide Collapse;
    if at == 0 {
      assert phrase <= Collapse(Lower(text));
      i := 0;
      j := FoldedPrefix(text, phrase);
      assert text[0..j] == text[..j];
    } else {
      NothingFolds();
      assert text != "";
      FoldsStepwise(text);
      var rest := Collapse(Lower(text[1..]));
      if Collapse(Lower(text)) == rest {
        i, j := FoldedPart(text[1..], phrase, at);
      } else {
        var c :| Collapse(Lower(text)) == [c] + rest;
        OccursFurtherOn([c], rest, phrase, at);
        i, j := FoldedPart(text[1..], phrase, at - 1);
      }
      PartFurtherOn(text, i, j, phrase);
      i, j := i + 1, j + 1;
    }
  }

  lemma NothingFolds()
    ensures Collapse(Lower("")) == ""
  {
  }

  lemma {:induction false} SpelledEnds(text: string, rest: string)
    requires Spells(text, rest) && rest != "" && rest[|rest| - 1] != ' ' && !IsSeparator(rest[|rest| - 1])
    ensures text != "" && !IsSeparator(text[|text| - 1])
    decreases |text|
  {
    LowerSeparates(text[0]);
    if rest[0] == ' ' {
      if Spells(text[1..], rest[1..]) {
        SpelledEnds(text[1..], rest[1..]);
      } else {
        SpelledEnds(text[1..], rest);
      }
    } else if |rest| > 1 {
      SpelledEnds(text[1..], rest[1..]);
    }
  }

  lemma PhraseIsRest(phrase: string)
    requires IsPhrase(phrase)
    ensures IsRest(phrase) && !IsSeparator(phrase[0]) && !IsSeparator(phrase[|phrase| - 1])
  {
  }

  // A phrase spelled inside a text stands in what the text folds to.
  lemma SpelledInside(a: string, v: string, b: string, phrase: string)
    requires Spells(v, phrase) && IsPhrase(phrase)
    ensures Collapse(Lower(a + v + b)) == Collapse(Lower(a)) + phrase + Collapse(Lower(b))
  {
    PhraseIsRest(phrase);
    SpelledFolds(v, phrase);
    FirstFolds(v, phrase);
    SpelledEnds(v, phrase);
    FoldsInThree(a, v, b);
  }

  // ── Trimming ──────────────────────────────────────────────────────

  lemma {:induction false} TrimStartKeeps(p: string, f: string)
    requires f != "" && !IsWhitespace(f[0])
    ensures exists k :: 0 <= k <= |p| && TrimStart(p + f) == p[k..] + f
  {
    if p != "" && IsWhitespace(p[0]) {
      assert (p + f)[1..] == p[1..] + f;
      TrimStartKeeps(p[1..], f);
      var k :| 0 <= k <= |p[1..]| && TrimStart(p[1..] + f) == p[1..][k..] + f;
      assert p[1..][k..] == p[k + 1..];
    } else {
      assert p[0..] == p;
      if p == "" {
        assert p + f == f;
      }
    }
  }

  lemma {:induction false} TrimEndKeeps(f: string, q: string)
    requires f != "" && !IsWhitespace(f[|f| - 1])
    ensures exists k :: 0 <= k <= |q| && TrimEnd(f + q) == f + q[..k]
  {
    if q != "" && IsWhitespace(q[|q| - 1]) {
      var n := |q| - 1;
      assert (f + q)[..|f + q| - 1] == f + q[..n];
      TrimEndKeeps(f, q[..n]);
      var k :| 0 <= k <= n && TrimEnd(f + q[..n]) == f + q[..n][..k];
      assert q[..n][..k] == q[..k];
    } else {
      assert q[..|q|] == q;
      if q == "" {
        assert f + q == f;
      }
    }
  }

  lemma TrimKeepsInside(p: string, f: string, q: string)
    requires f != "" && !IsWhitespace(f[0]) && !IsWhitespace(f[|f| - 1])
    ensures Contains(Trim(p + f + q), f)
  {
    assert p + f + q == p + (f + q);
    TrimStartKeeps(p, f + q);
    var k :| 0 <= k <= |p| && TrimStart(p + (f + q)) == p[k..] + (f + q);
    var front := p[k..] + f;
    assert p[k..] + (f + q) == front + q;
    TrimEndKeeps(front, q);
    var m :| 0 <= m <= |q| && TrimEnd(front + q) == front + q[..m];
    assert (front + q[..m])[|p[k..]|..|p[k..]| + |f|] == f;
    assert OccursAt(Trim(p + f + q), f, |p[k..]|);
  }

  lemma {:induction false} TrimStartIsSlice(s: string)
    ensures exists k :: 0 <= k <= |s| && TrimStart(s) == s[k..]
  {
    if s != "" && IsWhitespace(s[0]) {
      TrimStartIsSlice(s[1..]);
      var k :| 0 <= k <= |s[1..]| && TrimStart(s[1..]) == s[1..][k..];
      assert s[1..][k..] == s[k + 1..];
    } else {
      assert s[0..] == s;
    }
  }

  lemma {:induction false} TrimEndIsPrefix(s: string)
    ensures TrimEnd(s) <= s
  {
    if s != "" && IsWhitespace(s[|s| - 1]) {
      TrimEndIsPrefix(s[..|s| - 1]);
    }
  }

  lemma TrimContainsLess(s: string, f: string)
    requires Contains(Trim(s), f)
    ensures Contains(s, f)
  {
    TrimStartIsSlice(s);
    TrimEndIsPrefix(TrimStart(s));
    var k :| 0 <= k <= |s| && TrimStart(s) == s[k..];
    var i :| 0 <= i <= |Trim(s)| && OccursAt(Trim(s), f, i);
    assert Trim(s)[i..i + |f|] == s[k + i..k + i + |f|];
    assert OccursAt(s, f, k + i);
  }

  // ── Which texts a phrase is found in ──────────────────────────────

  // A folded header contains a phrase exactly if the header mentions it.
  lemma MentionedExactlyWhen(header: string, phrase: string)
    requires IsPhrase(phrase)
    ensures Contains(NormalizeHeader(header), phrase) <==> Mentions(header, phrase)
  {
    PhraseIsRest(phrase);
    if i, j :| 0 <= i <= j <= |header| && Spells(header[i..j], phrase) {
      var a, v, b := header[..i], header[i..j], header[j..];
      assert header == a + v + b;
      SpelledInside(a, v, b, phrase);
      TrimKeepsInside(Collapse(Lower(a)), phrase, Collapse(Lower(b)));
    }
    if Contains(NormalizeHeader(header), phrase) {
      TrimContainsLess(Collapse(Lower(header)), phrase);
      var at :| 0 <= at <= |Collapse(Lower(header))| && OccursAt(Collapse(Lower(header)), phrase, at);
      var i, j := FoldedPart(header, phrase, at);
    }
  }

  lemma SeparatorsFoldAway(s: string)
    requires AllSeparators(s)
    ensures Collapse(Lower(s)) == if s == "" then "" else " "
  {
    FoldSeparators(Lower(s), s);
  }

  lemma {:induction false} FoldSeparators(low: string, s: string)
    requires |low| == |s| && AllSeparators(s) && forall i :: 0 <= i < |s| ==> low[i] == LowerChar(s[i])
    ensures Collapse(low) == if s == "" then "" else " "
  {
    if s != "" {
      LowerSeparates(s[0]);
      if |s| > 1 {
        LowerSeparates(s[1]);
      }
      FoldSeparators(low[1..], s[1..]);
    }
  }

  lemma TrimVisible(text: string, before: string, after: string)
    requires text != "" && !IsSeparator(text[0]) && !IsSeparator(text[|text| - 1])
    requires before in {"", " "} && after in {"", " "}
    ensures Trim(before + text + after) == text
  {
    var all := before + text + after;
    assert all == before + (text + after);
    assert before == " " ==> all[1..] == text + after;
    assert TrimStart(text + after) == text + after;
    assert TrimStart(all) == text + after;
    assert after == " " ==> (text + after)[..|text|] == text;
    assert after == "" ==> text + after == text;
    assert TrimEnd(text) == text;
  }

  lemma {:induction false} SpellsItsFold(text: string)
    ensures Spells(text, Collapse(Lower(text)))
  {
    if text != "" {
      var low := Lower(text);
      assert low[1..] == Lower(text[1..]);
      LowerSeparates(text[0]);
      SpellsItsFold(text[1..]);
      if IsSeparator(text[0]) {
        if |text| > 1 {
          LowerSeparates(text[1]);
          if IsSeparator(text[1]) {
            CollapseStartsLikeARun(low[1..]);
          }
        }
      }
    }
  }

  lemma FoldEnds(text: string)
    requires text != "" && !IsSeparator(text[0]) && !IsSeparator(text[|text| - 1])
    ensures
      var folded := Collapse(Lower(text));
      folded != "" && !IsSeparator(folded[0]) && !IsSeparator(folded[|folded| - 1])
  {
    LowerSeparates(text[0]);
    var n := |text| - 1;
    LowerSeparates(text[n]);
    LowerConcat(text[..n], text[n..]);
    assert text[..n] + text[n..] == text && Lower(text[n..]) == [LowerChar(text[n])];
    CollapseConcat(Lower(text[..n]), Lower(text[n..]));
    var last := Lower(text[n..]);
    assert last[1..] == "" && Collapse(last) == last;
  }

  // A header cut down to what stands between its outer separators.
  lemma {:induction false} SkipSeparators(s: string) returns (i: nat)
    ensures i <= |s| && AllSeparators(s[..i]) && (i < |s| ==> !IsSeparator(s[i]))
  {
    i := 0;
    if s != "" && IsSeparator(s[0]) {
      var k := SkipSeparators(s[1..]);
      i := k + 1;
      assert forall m :: 0 < m < i ==> s[m] == s[1..][..k][m - 1];
    }
  }

  lemma {:induction false} SkipSeparatorsBack(s: string) returns (j: nat)
    ensures j <= |s| && AllSeparators(s[j..]) && (j > 0 ==> !IsSeparator(s[j - 1]))
  {
    j := |s|;
    if s != "" && IsSeparator(s[|s| - 1]) {
      var n := |s| - 1;
      j := SkipSeparatorsBack(s[..n]);
      assert forall m :: j <= m < n ==> s[m] == s[..n][j..][m - j];
    }
  }

  lemma FoldsInThree(a: string, v: string, b: string)
    requires v != "" && !IsSeparator(v[0]) && !IsSeparator(v[|v| - 1])
    ensures Collapse(Lower(a + v + b)) == Collapse(Lower(a)) + Collapse(Lower(v)) + Collapse(Lower(b))
  {
    hide Collapse;
    hide IsSeparator;
    LowerSeparates(v[0]);
    LowerSeparates(v[|v| - 1]);
    LowerConcat(a + v, b);
    LowerConcat(a, v);
    CollapseConcat(Lower(a), Lower(v));
    var start := Lower(a) + Lower(v);
    assert start[|start| - 1] == Lower(v)[|v| - 1];
    CollapseConcat(start, Lower(b));
  }

  lemma OuterSeparators(a: string, v: string, b: string)
    requires AllSeparators(a) && AllSeparators(b)
    requires v != "" && !IsSeparator(v[0]) && !IsSeparator(v[|v| - 1])
    ensures NormalizeHeader(a + v + b) == Collapse(Lower(v))
  {
    hide Collapse;
    hide Trim;
    hide AllSeparators;
    hide IsSeparator;
    hide Lower;
    FoldsInThree(a, v, b);
    var before, text, after := Collapse(Lower(a)), Collapse(Lower(v)), Collapse(Lower(b));
    assert before in {"", " "} by { SeparatorsFoldAway(a); }
    assert after in {"", " "} by { SeparatorsFoldAway(b); }
    FoldEnds(v);
    TrimVisible(text, before, after);
    assert NormalizeHeader(a + v + b) == Trim(before + text + after);
  }

  lemma NormalizedExactlyWhen(header: string, phrase: string)
    requires IsPhrase(phrase)
    ensures NormalizeHeader(header) == phrase <==> IsHeader(header, phrase)
  {
    hide NormalizeHeader;
    PhraseIsRest(phrase);
    hide Spells;
    hide AllSeparators;
    hide Collapse;
    if i: nat, j: nat :| IsHeaderAt(header, phrase, i, j) {
      var v := header[i..j];
      assert header == header[..i] + v + header[j..];
      SpelledFolds(v, phrase);
      SpelledStarts(v, phrase);
      SpelledEnds(v, phrase);
      OuterSeparators(header[..i], v, header[j..]);
    }
    if NormalizeHeader(header) == phrase {
      var i := SkipSeparators(header);
      if i == |header| {
        assert header[..i] == header;
        NothingButSeparators(header);
      } else {
        var n := SkipSeparatorsBack(header[i..]);
        Outer(header, i, n);
        var v := header[i..i + n];
        OuterSeparators(header[..i], v, header[i + n..]);
        SpellsItsFold(v);
        assert IsHeaderAt(header, phrase, i, i + n);
      }
    }
  }

  lemma SpelledStarts(text: string, phrase: string)
    requires Spells(text, phrase) && phrase != "" && phrase[0] != ' ' && !IsSeparator(phrase[0])
    ensures text != "" && !IsSeparator(text[0])
  {
    FirstFolds(text, phrase);
  }

  lemma Outer(header: string, i: nat, n: nat)
    requires i < |header| && !IsSeparator(header[i])
    requires n <= |header[i..]| && AllSeparators(header[i..][n..]) && (n > 0 ==> !IsSeparator(header[i..][n - 1]))
    ensures n > 0 && header == header[..i] + header[i..i + n] + header[i + n..]
    ensures header[i..i + n] != "" && header[i..i + n][0] == header[i] && !IsSeparator(header[i..i + n][n - 1])
    ensures AllSeparators(header[i + n..])
  {
    assert header[i..][n..] == header[i + n..];
    assert header[i + n..] != "" ==> IsSeparator(header[i + n..][0]);
  }

  lemma NothingButSeparators(header: string)
    requires AllSeparators(header)
    ensures NormalizeHeader(header) == ""
  {
    SeparatorsFoldAway(header);
    assert " "[1..] == "";
  }

  // ── The listed phrases ────────────────────────────────────────────

  function AliasesOf(field: RosterField): set<string> {
    match field
    case FullName => NAME_ALIASES
    case Email => EMAIL_ALIASES
    case PhoneNumber => PHONE_ALIASES
    case Department => DEPARTMENT_ALIASES
    case EmployeeRef => EMPLOYEE_REF_ALIASES
  }

  predicate IsLetter(c: char) {
    'a' <= c <= 'z' || '\U{621}' <= c <= '\U{64A}'
  }

  // Words of Latin or Arabic letters, which are phrases.
  predicate IsWords(s: string) {
    && s != "" && s[0] != ' ' && s[|s| - 1] != ' '
    && (forall i :: 0 <= i < |s| ==> IsLetter(s[i]) || s[i] == ' ')
    && (forall i :: 0 <= i < |s| - 1 ==> !(s[i] == ' ' && s[i + 1] == ' '))
  }

  lemma WordsArePhrases(s: string)
    requires IsWords(s)
    ensures IsPhrase(s)
  {
  }

  lemma LatinFragments(s: string)
    requires s in {"address", "street", "city", "district", "region", "postal", "zip"}
    ensures IsWords(s)
  {
  }

  lemma MoreLatinFragments(s: string)
    requires s in {"po box", "pobox", "location", "building", "apartment", "villa"}
    ensures IsWords(s)
  {
  }

  lemma ArabicFragments(s: string)
    requires s in {"عنوان", "العنوان", "شارع", "مدينة", "المدينة", "حي", "الحي", "منطقة"}
    ensures IsWords(s)
  {
  }

  lemma MoreArabicFragments(s: string)
    requires s in {"المنطقة", "رمز بريدي", "الرمز البريدي", "صندوق بريد", "موقع", "مبنى", "شقة", "فيلا"}
    ensures IsWords(s)
  {
  }

  lemma FragmentsArePhrases(f: string)
    requires f in FORBIDDEN_HEADER_FRAGMENTS
    ensures IsPhrase(f)
  {
    hide IsWords;
    hide IsPhrase;
    if f in {"address", "street", "city", "district", "region", "postal", "zip"} {
      LatinFragments(f);
    } else if f in {"po box", "pobox", "location", "building", "apartment", "villa"} {
      MoreLatinFragments(f);
    } else if f in {"عنوان", "العنوان", "شارع", "مدينة", "المدينة", "حي", "الحي", "منطقة"} {
      ArabicFragments(f);
    } else {
      MoreArabicFragments(f);
    }
    WordsArePhrases(f);
  }

  lemma NameAliases(s: string)
    requires s in NAME_ALIASES
    ensures IsWords(s)
  {
  }

  lemma EmailAliases(s: string)
    requires s in EMAIL_ALIASES
    ensures IsWords(s)
  {
  }

  lemma PhoneAliases(s: string)
    requires s in PHONE_ALIASES
    ensures IsWords(s)
  {
  }

  lemma DepartmentAliases(s: string)
    requires s in DEPARTMENT_ALIASES
    ensures IsWords(s)
  {
  }

  lemma EmployeeRefAliases(s: string)
    requires s in EMPLOYEE_REF_ALIASES
    ensures IsWords(s)
  {
  }

  lemma AliasesArePhrases(field: RosterField, alias: string)
    requires alias in AliasesOf(field)
    ensures IsPhrase(alias)
  {
    hide IsWords;
    hide IsPhrase;
    match field {
      case FullName => NameAliases(alias);
      case Email => EmailAliases(alias);
      case PhoneNumber => PhoneAliases(alias);
      case Department => DepartmentAliases(alias);
      case EmployeeRef => EmployeeRefAliases(alias);
    }
    WordsArePhrases(alias);
  }

  lemma AliasesAreApart(field: RosterField, other: RosterField, alias: string)
    requires alias in AliasesOf(field) && alias in AliasesOf(other)
    ensures field == other
  {
  }

  // ── The gate on texts ─────────────────────────────────────────────

  // Some listed fragment of an address is spelled in the header.
  ghost predicate MentionsAddress(header: string) {
    exists f :: f in FORBIDDEN_HEADER_FRAGMENTS && Mentions(header, f)
  }

  // The header spells a name of the field, and no address.
  ghost predicate NamesField(header: string, field: RosterField) {
    !MentionsAddress(header) && exists alias :: alias in AliasesOf(field) && IsHeader(header, alias)
  }

  lemma NothingIsNotContained(f: string)
    requires f in FORBIDDEN_HEADER_FRAGMENTS
    ensures !Contains("", f)
  {
    hide IsPhrase;
    FragmentsArePhrases(f);
    PhraseIsNotEmpty(f);
    forall i | 0 <= i <= 0 ensures !OccursAt("", f, i) {
    }
  }

  lemma PhraseIsNotEmpty(f: string)
    requires IsPhrase(f)
    ensures f != ""
  {
  }

  lemma AddressLikeExactlyWhen(header: string)
    ensures KindOf(header).AddressLike? <==> MentionsAddress(header)
  {
    hide NormalizeHeader;
    hide Contains;
    hide Mentions;
    hide IsPhrase;
    hide AliasOf;
    var norm := NormalizeHeader(header);
    forall f | f in FORBIDDEN_HEADER_FRAGMENTS
      ensures Contains(norm, f) <==> Mentions(header, f)
      ensures !Contains("", f)
    {
      FragmentsArePhrases(f);
      MentionedExactlyWhen(header, f);
      NothingIsNotContained(f);
    }
  }

  lemma AliasOfExactlyWhen(norm: string, field: RosterField)
    ensures AliasOf(norm) == Some(field) <==> norm in AliasesOf(field)
  {
    forall other | norm in AliasesOf(field) && norm in AliasesOf(other) ensures field == other {
      AliasesAreApart(field, other, norm);
    }
    assert norm in AliasesOf(FullName) <==> norm in NAME_ALIASES;
    assert norm in AliasesOf(Email) <==> norm in EMAIL_ALIASES;
    assert norm in AliasesOf(PhoneNumber) <==> norm in PHONE_ALIASES;
    assert norm in AliasesOf(Department) <==> norm in DEPARTMENT_ALIASES;
    assert norm in AliasesOf(EmployeeRef) <==> norm in EMPLOYEE_REF_ALIASES;
  }

  lemma AliasMatches(header: string, field: RosterField)
    ensures
      NormalizeHeader(header) in AliasesOf(field) <==>
      exists alias :: alias in AliasesOf(field) && IsHeader(header, alias)
  {
    hide NormalizeHeader;
    hide IsHeader;
    hide IsPhrase;
    hide AliasesOf;
    forall alias | alias in AliasesOf(field) ensures NormalizeHeader(header) == alias <==> IsHeader(header, alias) {
      AliasesArePhrases(field, alias);
      NormalizedExactlyWhen(header, alias);
    }
  }

  // A header is taken for a field exactly if it spells one of the field's names,
  // whatever its case and separators, and mentions no address.
  lemma NamesExactlyWhen(header: string, field: RosterField)
    ensures KindOf(header) == Names(field) <==> NamesField(header, field)
  {
    hide NormalizeHeader;
    hide AliasOf;
    hide IsHeader;
    hide MentionsAddress;
    hide AliasesOf;
    hide Contains;
    var norm := NormalizeHeader(header);
    AddressLikeExactlyWhen(header);
    AliasOfExactlyWhen(norm, field);
    AliasMatches(header, field);
    if norm in AliasesOf(field) {
      hide IsPhrase;
      AliasesArePhrases(field, norm);
      PhraseIsNotEmpty(norm);
    }
  }

  lemma {:induction false} OffendersAreTheAddressLike(row: seq<Column>, title: string)
    ensures title in Offenders(row) <==>
      exists k :: 0 <= k < |row| && row[k].kind.AddressLike? && row[k].title == title
  {
    if row != [] {
      var n := |row| - 1;
      OffendersAreTheAddressLike(row[..n], title);
      if k :| 0 <= k < n && row[..n][k].kind.AddressLike? && row[..n][k].title == title {
        assert row[k].kind.AddressLike? && row[k].title == title;
      }
      if k :| 0 <= k < |row| && row[k].kind.AddressLike? && row[k].title == title {
        if k < n {
          assert row[..n][k].kind.AddressLike?;
        }
      }
    }
  }

  // The privacy gate on the header texts. A file is refused for address columns
  // exactly if some header mentions an address, and the refusal names exactly
  // those headers; otherwise it is planned exactly if some header spells a name
  // of the person's name and some header one of a channel.
  lemma PrivacyGateOnTexts(headers: seq<string>)
    ensures
      var plan := PlanOf(Classify(headers));
      && (plan.AddressColumnsForbidden? <==> exists k :: 0 <= k < |headers| && MentionsAddress(headers[k]))
      && (plan.AddressColumnsForbidden? ==> forall title ::
            title in plan.offenders <==>
            exists k :: 0 <= k < |headers| && MentionsAddress(headers[k]) && Trim(headers[k]) == title)
      && (plan.Plan? <==>
            && (forall k :: 0 <= k < |headers| ==> !MentionsAddress(headers[k]))
            && SomeNames(headers, FullName) && (SomeNames(headers, Email) || SomeNames(headers, PhoneNumber)))
      && (plan.Plan? ==>
            && (forall field :: field in plan.columns <==> SomeNames(headers, field))
            && (forall field :: field in plan.columns ==> FirstNames(headers, field, plan.columns[field])))
  {
    hide KindOf;
    hide MentionsAddress;
    hide NamesField;
    hide Offenders;
    hide Assigned;
    var row := Classify(headers);
    PlanIsThePrivacyGate(row);
    forall k | 0 <= k < |headers| ensures row[k].kind.AddressLike? <==> MentionsAddress(headers[k]) {
      AddressLikeExactlyWhen(headers[k]);
    }
    forall k, field | 0 <= k < |headers| ensures row[k].kind == Names(field) <==> NamesField(headers[k], field) {
      NamesExactlyWhen(headers[k], field);
    }
    forall title
      ensures title in Offenders(row) <==>
        exists k :: 0 <= k < |headers| && MentionsAddress(headers[k]) && Trim(headers[k]) == title
    {
      OffendersAreTheAddressLike(row, title);
    }
    NamedInTexts(headers, FullName);
    NamedInTexts(headers, Email);
    NamedInTexts(headers, PhoneNumber);
  }

  ghost predicate SomeNames(headers: seq<string>, field: RosterField) {
    exists k :: 0 <= k < |headers| && NamesField(headers[k], field)
  }

  ghost predicate FirstNames(headers: seq<string>, field: RosterField, k: nat) {
    k < |headers| && NamesField(headers[k], field) && forall i :: 0 <= i < k ==> !NamesField(headers[i], field)
  }

  lemma NamedInTexts(headers: seq<string>, field: RosterField)
    ensures Named(Classify(headers), field) <==> SomeNames(headers, field)
  {
    hide KindOf;
    hide NamesField;
    forall k | 0 <= k < |headers|
      ensures Classify(headers)[k].kind == Names(field) <==> NamesField(headers[k], field)
    {
      NamesExactlyWhen(headers[k], field);
    }
  }

  // ── What is left unused ───────────────────────────────────────────

  lemma BlankExactlyWhen(header: string)
    ensures KindOf(header).Blank? <==> AllSeparators(header)
  {
    hide NormalizeHeader;
    hide Collapse;
    hide Contains;
    hide AliasOf;
    hide IsSeparator;
    var i := SkipSeparators(header);
    if i == |header| {
      assert header[..i] == header;
      NothingButSeparators(header);
    } else {
      var n := SkipSeparatorsBack(header[i..]);
      Outer(header, i, n);
      var v := header[i..i + n];
      OuterSeparators(header[..i], v, header[i + n..]);
      FoldEnds(v);
      assert header[i] in header;
    }
  }

  // Not blank, and not the first header of a field.
  ghost predicate IsUnused(headers: seq<string>, k: nat) {
    && k < |headers| && !AllSeparators(headers[k]) && !MentionsAddress(headers[k])
    && forall field :: !FirstNames(headers, field, k)
  }

  lemma {:induction false} IgnoredExactlyWhen(row: seq<Column>, title: string)
    ensures title in Assigned(row).1 <==> exists k :: 0 <= k < |row| && row[k].title == title && IsLeftOver(row, k)
  {
    if row != [] {
      var n := |row| - 1;
      IgnoredExactlyWhen(row[..n], title);
      forall k | 0 <= k < n ensures IsLeftOver(row[..n], k) <==> IsLeftOver(row, k) {
        LeftOverBefore(row, n, k);
      }
      LastLeftOver(row);
      if k :| 0 <= k < n && row[..n][k].title == title && IsLeftOver(row[..n], k) {
        assert row[k].title == title && IsLeftOver(row, k);
      }
      if k :| 0 <= k < |row| && row[k].title == title && IsLeftOver(row, k) {
        if k < n {
          assert row[..n][k].title == title && IsLeftOver(row[..n], k);
        }
      }
    }
  }

  ghost predicate IsLeftOver(row: seq<Column>, k: nat) {
    k < |row| && (row[k].kind.Unknown? || (row[k].kind.Names? && !FirstNamed(row, row[k].kind.field, k)))
  }

  lemma LeftOverBefore(row: seq<Column>, n: nat, k: nat)
    requires k < n <= |row|
    ensures IsLeftOver(row[..n], k) <==> IsLeftOver(row, k)
  {
  }

  lemma LastLeftOver(row: seq<Column>)
    requires row != []
    ensures
      var n := |row| - 1;
      Assigned(row).1 == Assigned(row[..n]).1 + if IsLeftOver(row, n) then [row[n].title] else []
  {
    hide Named;
    hide FirstNamed;
    var n := |row| - 1;
    if row[n].kind.Names? {
      AssignedIsFirst(row[..n], row[n].kind.field);
      NamedBefore(row, n, row[n].kind.field);
    }
  }

  lemma NamedBefore(row: seq<Column>, n: nat, f: RosterField)
    requires n < |row| && row[n].kind == Names(f)
    ensures FirstNamed(row, f, n) <==> !Named(row[..n], f)
  {
    if !FirstNamed(row, f, n) {
      var i :| 0 <= i < n && row[i].kind == Names(f);
      assert row[..n][i].kind == Names(f);
    }
  }

  // A planned file reports exactly the headers it has no use for.
  lemma UnusedAreReported(headers: seq<string>)
    ensures
      var plan := PlanOf(Classify(headers));
      plan.Plan? ==> forall title ::
        title in plan.ignored <==> exists k :: 0 <= k < |headers| && IsUnused(headers, k) && Trim(headers[k]) == title
  {
    hide KindOf;
    hide MentionsAddress;
    hide NamesField;
    hide Offenders;
    hide Assigned;
    hide AllSeparators;
    var row := Classify(headers);
    if PlanOf(row).Plan? {
      forall k | 0 <= k < |headers| ensures IsLeftOver(row, k) <==> IsUnused(headers, k) {
        UnusedIsLeftOver(headers, k);
      }
      forall title
        ensures title in PlanOf(row).ignored <==>
          exists k :: 0 <= k < |headers| && IsUnused(headers, k) && Trim(headers[k]) == title
      {
        IgnoredExactlyWhen(row, title);
      }
    }
  }

  lemma UnusedIsLeftOver(headers: seq<string>, k: nat)
    requires k < |headers|
    ensures IsLeftOver(Classify(headers), k) <==> IsUnused(headers, k)
  {
    hide KindOf;
    hide MentionsAddress;
    hide NamesField;
    hide AllSeparators;
    var row := Classify(headers);
    BlankExactlyWhen(headers[k]);
    AddressLikeExactlyWhen(headers[k]);
    forall i, field | 0 <= i < |headers| ensures row[i].kind == Names(field) <==> NamesField(headers[i], field) {
      NamesExactlyWhen(headers[i], field);
    }
    forall field ensures FirstNamed(row, field, k) <==> FirstNames(headers, field, k) {
      SameFirst(headers, field, k);
    }
    if row[k].kind.Names? {
      OneFieldEach(headers, k, row[k].kind.field);
    }
  }

  lemma SameFirst(headers: seq<string>, field: RosterField, k: nat)
    ensures FirstNamed(Classify(headers), field, k) <==> FirstNames(headers, field, k)
  {
    hide KindOf;
    hide NamesField;
    var row := Classify(headers);
    forall i | 0 <= i < |headers| ensures row[i].kind == Names(field) <==> NamesField(headers[i], field) {
      NamesExactlyWhen(headers[i], field);
    }
  }

  lemma OneFieldEach(headers: seq<string>, k: nat, f: RosterField)
    requires k < |headers| && KindOf(headers[k]) == Names(f)
    ensures forall field :: FirstNames(headers, field, k) ==> field == f
  {
    hide KindOf;
    hide NamesField;
    forall field | FirstNames(headers, field, k) ensures field == f {
      NamesExactlyWhen(headers[k], field);
    }
  }

  // ── Every spelling ────────────────────────────────────────────────

  // The phrase letter by letter, in any case, with any one separator for a space.
  predicate Resembles(text: string, phrase: string) {
    |text| == |phrase| && forall i :: 0 <= i < |phrase| ==>
      if phrase[i] == ' ' then IsSeparator(text[i]) else LowerChar(text[i]) == phrase[i]
  }

  lemma {:induction false} ResemblingSpells(text: string, phrase: string)
    requires Resembles(text, phrase)
    ensures Spells(text, phrase)
  {
    if phrase != "" {
      ResemblingSpells(text[1..], phrase[1..]);
    }
  }

  // Whatever stands around it, a fragment of an address in any case and with any
  // separators gets the file refused.
  lemma EverySpellingIsRefused(headers: seq<string>, k: nat, before: string, text: string, after: string, f: string)
    requires k < |headers| && headers[k] == before + text + after
    requires f in FORBIDDEN_HEADER_FRAGMENTS && Resembles(text, f)
    ensures PlanOf(Classify(headers)).AddressColumnsForbidden?
    ensures Trim(headers[k]) in PlanOf(Classify(headers)).offenders
  {
    hide PlanOf;
    hide Classify;
    ResemblingSpells(text, f);
    assert headers[k][|before|..|before| + |text|] == text;
    assert Mentions(headers[k], f);
    assert MentionsAddress(headers[k]);
    PrivacyGateOnTexts(headers);
  }

  // Among them the fragment itself and its capitals.
  lemma CapitalsResemble(phrase: string)
    requires IsPhrase(phrase)
    ensures Resembles(phrase, phrase) && Resembles(Upper(phrase), phrase)
  {
    hide IsSeparator;
    forall i | 0 <= i < |phrase|
      ensures phrase[i] != ' ' ==> LowerChar(Upper(phrase)[i]) == phrase[i]
      ensures phrase[i] == ' ' ==> IsSeparator(phrase[i]) && IsSeparator(Upper(phrase)[i])
    {
      CapitalOf(phrase[i]);
    }
  }

  lemma CapitalOf(c: char)
    requires LowerChar(c) == c
    ensures LowerChar(UpperChar(c)) == c
    ensures c == ' ' ==> IsSeparator(c) && UpperChar(c) == c
  {
  }
}
