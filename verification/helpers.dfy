/** The pure helpers of `app/helpers.py`: input validation, truncation,
    external-id formatting, the staff-channel card and its status-line rewrite,
    and the plain-text description sent to the case-management backend. */
module Helpers {
  import opened Wrappers
  import opened Strings

  // ---------------------------------------------------------------------------
  // access and validation

  /** `is_admin`: the user id is one of the configured admin ids. */
  predicate IsAdmin(adminIds: seq<int>, userId: int) {
    userId in adminIds
  }

  /** `validate_name`: the stripped name has between 2 and 120 characters. */
  predicate ValidName(s: string) {
    2 <= |Strip(s)| <= 120
  }

  /** Characters allowed after the first one by `PHONE_RE`: `[\d\s\-\(\)]`. */
  predicate PhoneBodyChar(c: char) {
    IsDigit(c) || IsSpace(c) || c == '-' || c == '(' || c == ')'
  }

  /** A full match of `PHONE_RE`: a `+` or a digit, then 6 to 19 body characters. */
  predicate PhoneShape(s: string) {
    && 7 <= |s| <= 20
    && (s[0] == '+' || IsDigit(s[0]))
    && forall i :: 1 <= i < |s| ==> PhoneBodyChar(s[i])
  }

  /** The number of digits in `s`, which `validate_phone` bounds. */
  function DigitCount(s: string): (n: nat)
    ensures n <= |s|
  {
    if |s| == 0 then 0 else (if IsDigit(s[0]) then 1 else 0) + DigitCount(s[1..])
  }

  /** `validate_phone`: the stripped input has the phone shape and 7 to 20 digits. */
  predicate ValidPhone(s: string) {
    var t := Strip(s);
    PhoneShape(t) && 7 <= DigitCount(t) <= 20
  }

  /** Every accepted phone is 7 to 20 characters long once stripped, and the
      upper digit bound can never be what rejects an input. */
  lemma PhoneAcceptance(s: string)
    ensures ValidPhone(s) ==> 7 <= |Strip(s)| <= 20
    ensures ValidPhone(s) <==> PhoneShape(Strip(s)) && DigitCount(Strip(s)) >= 7
  {
  }

  /** `+123456` has the phone shape but only six digits, so it is rejected. */
  lemma ShortPhoneRejected(p: string)
    requires p == "+123456"
    ensures PhoneShape(p) && !ValidPhone(p)
  {
    SignedDigitCount(p);
    PhoneOfStripped(p, 6);
  }

  /** `+998901234567` is accepted. */
  lemma FullPhoneAccepted(p: string)
    requires p == "+998901234567"
    ensures ValidPhone(p)
  {
    SignedDigitCount(p);
    PhoneOfStripped(p, 12);
  }

  /** A `+` followed by digits is stripped, and only the `+` is not counted. */
  lemma SignedDigitCount(p: string)
    requires |p| >= 2 && p[0] == '+' && AllDigits(p[1..])
    ensures Stripped(p) && DigitCount(p) == |p| - 1
  {
    DigitCountAllDigits(p[1..]);
    assert IsDigit(p[1..][|p| - 2]);
  }

  /** A stripped input with `digits` digits is judged as it is. */
  lemma PhoneOfStripped(p: string, digits: nat)
    requires Stripped(p) && DigitCount(p) == digits
    ensures ValidPhone(p) <==> PhoneShape(p) && 7 <= digits <= 20
  {
    var t := Strip(p);
    assert t == p;
    assert ValidPhone(p) <==> PhoneShape(t) && 7 <= DigitCount(t) <= 20;
  }

  /** A string of digits counts every character. */
  lemma {:induction false} DigitCountAllDigits(s: string)
    requires AllDigits(s)
    ensures DigitCount(s) == |s|
  {
    if |s| > 0 {
      DigitCountAllDigits(s[1..]);
    }
  }

  // ---------------------------------------------------------------------------
  // truncation

  const Ellipsis: char := '\U{2026}'

  /** Python's `s[:k]` for an integer `k` (negative counts from the end). */
  function PyPrefix(s: string, k: int): (r: string)
    ensures |r| <= |s| && r == s[..|r|]
    ensures 0 <= k <= |s| ==> |r| == k
  {
    if k >= 0 then s[..if k <= |s| then k else |s|]
    else s[..if |s| + k >= 0 then |s| + k else 0]
  }

  /** `truncate(s, n)`: the stripped input when it fits in `n` characters,
      otherwise a prefix of it followed by an ellipsis, never longer than `n`
      when `n >= 1`. */
  function Truncate(s: string, n: int): (r: string)
    ensures |Strip(s)| <= n ==> r == Strip(s)
    ensures |Strip(s)| > n ==> |r| >= 1 && r[|r| - 1] == Ellipsis && r[..|r| - 1] <= Strip(s)
    ensures n >= 1 ==> |r| <= n
    ensures n >= 1 && |Strip(s)| > n ==> |r| == n
  {
    var t := Strip(s);
    if |t| <= n then t
    else
      var r := PyPrefix(t, n - 1) + [Ellipsis];
      assert r[..|r| - 1] == PyPrefix(t, n - 1);
      r
  }

  // ---------------------------------------------------------------------------
  // external ids

  /** An external id: prefix, year and the sequence number padded to six digits, joined by dashes. */
  function FormatExternalId(prefix: string, year: nat, seqNo: nat): string
  {
    prefix + "-" + NatToString(year) + "-" + ZeroPad(seqNo, 6)
  }

  /** The sequence number written at the end of an external id, if any. */
  function SequenceOf(id: string): Option<nat>
  {
    var tail := AfterLast(id, '-');
    if |tail| > 0 && AllDigits(tail) then Some(DecimalValue(tail)) else None
  }

  /** `generate_external_id`: raises the counter by exactly one and returns an
      id whose sequence number is the new counter value. */
  function GenerateExternalId(prefix: string, year: nat, counter: nat): (r: (nat, string))
    ensures r.0 == counter + 1
    ensures r.1 == FormatExternalId(prefix, year, r.0)
    ensures SequenceOf(r.1) == Some(r.0)
  {
    var next := counter + 1;
    SequenceRoundTrip(prefix, year, next);
    (next, FormatExternalId(prefix, year, next))
  }

  /** The sequence number can be read back from a formatted id, whatever the
      prefix (even one holding `-`) and the year. */
  lemma SequenceRoundTrip(prefix: string, year: nat, seqNo: nat)
    ensures SequenceOf(FormatExternalId(prefix, year, seqNo)) == Some(seqNo)
  {
    var digits := ZeroPad(seqNo, 6);
    assert '-' !in digits by {
      assert forall i :: 0 <= i < |digits| ==> IsDigit(digits[i]);
    }
    AfterLastSegment(prefix + "-" + NatToString(year), '-', digits);
  }

  /** Ids minted from different counter values differ, so consecutive calls
      give distinct ids even across a change of year or prefix. */
  lemma DistinctIds(p1: string, y1: nat, n1: nat, p2: string, y2: nat, n2: nat)
    requires n1 != n2
    ensures FormatExternalId(p1, y1, n1) != FormatExternalId(p2, y2, n2)
  {
    SequenceRoundTrip(p1, y1, n1);
    SequenceRoundTrip(p2, y2, n2);
  }

  /** The counter starts at zero, so the first id ends in `000001`. */
  lemma FirstExternalId(prefix: string, year: nat)
    ensures GenerateExternalId(prefix, year, 0).1 == prefix + "-" + NatToString(year) + "-000001"
  {
    FirstSequenceDigits();
  }

  lemma FirstSequenceDigits()
    ensures ZeroPad(1, 6) == "000001"
  {
    assert NatToString(1) == "1";
    assert Zeros(5) == "00000" by {
      assert Zeros(1) == "0";
      assert Zeros(2) == "00";
      assert Zeros(3) == "000";
      assert Zeros(4) == "0000";
    }
  }

  // ---------------------------------------------------------------------------
  // card text and its status line

  /** The literal that opens the status line and that `replace_status_line` searches for. */
  const StatusMarker: string := "🔧 Статус:"

  /** `card_text`: the fixed seven-line layout posted to the staff channel,
      written as a right-nested concatenation of its literals and fields. */
  function CardText(lang: string, id: string, name: string, phone: string,
                    category: string, text: string, status: string): string
  {
    "🆔 <b>" + (id + ("</b>\n🌐 " + (lang + ("\n👤 " + (name + ("\n📞 " + (phone
    + ("\n📂 " + (category + ("\n" + (StatusMarker + " " + status + "\n\n" + text)))))))))))
  }

  /** A status the `\1{status}` replacement template copies literally: no
      backslash escape and no digit that would extend the group reference `\1`. */
  predicate PlainReplacement(status: string) {
    && (forall i :: 0 <= i < |status| ==> status[i] != '\\')
    && (|status| == 0 || !IsDigit(status[0]))
  }

  /** Length of the run of non-newline characters that opens `s` (regex `.*`, greedy). */
  function RestOfLine(s: string): (n: nat)
    ensures n <= |s|
    ensures forall i :: 0 <= i < n ==> s[i] != '\n'
    ensures n < |s| ==> s[n] == '\n'
  {
    if |s| > 0 && s[0] != '\n' then 1 + RestOfLine(s[1..]) else 0
  }

  /** The two groups of a match of `(🔧 Статус:\s*)(.*)` at the start of `txt`:
      the marker with the whitespace after it, and the rest of that line; plus
      the text after the match, where scanning resumes. */
  function MatchStatusLine(txt: string): (m: (string, string, string))
    requires StatusMarker <= txt
    ensures m.0 + m.1 + m.2 == txt
    ensures |m.0| >= |StatusMarker| && m.0[..|StatusMarker|] == StatusMarker
    ensures forall i :: |StatusMarker| <= i < |m.0| ==> IsSpace(m.0[i])
    ensures '\n' !in m.1
    ensures |m.2| > 0 ==> m.2[0] == '\n'
    ensures |m.2| == 0 && |m.1| == 0 ==> |m.0| == |txt|
  {
    var after := txt[|StatusMarker|..];
    var ws := LeadingSpaces(after);  // regex `\s*`, greedy
    var rest := after[ws..];
    var n := RestOfLine(rest);
    assert txt == StatusMarker + after[..ws] + rest[..n] + rest[n..];
    assert forall i :: 0 <= i < n ==> rest[..n][i] == rest[i];
    (StatusMarker + after[..ws], rest[..n], rest[n..])
  }

  /** `replace_status_line`, a regex substitution of the status line.
      Scanning left to right, every occurrence of the marker keeps the marker and
      the whitespace after it and has the rest of that line replaced by `status`. */
  function ReplaceStatusLine(txt: string, status: string): string
    requires PlainReplacement(status)
    decreases |txt|
  {
    if |txt| == 0 then []
    else if StatusMarker <= txt then
      var m := MatchStatusLine(txt);
      m.0 + status + ReplaceStatusLine(m.2, status)
    else
      [txt[0]] + ReplaceStatusLine(txt[1..], status)
  }

  /** An occurrence in the tail of a string is an occurrence in the string. */
  lemma ContainsShift(txt: string)
    requires |txt| > 0
    ensures Contains(txt[1..], StatusMarker) ==> Contains(txt, StatusMarker)
  {
    if Contains(txt[1..], StatusMarker) {
      var i: nat :| i <= |txt[1..]| && OccursAt(txt[1..], StatusMarker, i);
      assert txt[1..][i..i + |StatusMarker|] == txt[i + 1..i + 1 + |StatusMarker|];
      assert OccursAt(txt, StatusMarker, i + 1);
    }
  }

  /** Where no occurrence of the marker starts inside `a`, the rewrite copies `a`. */
  lemma {:induction false} ReplaceSkips(a: string, b: string, status: string)
    requires PlainReplacement(status)
    requires forall i: nat :: i < |a| ==> !OccursAt(a + b, StatusMarker, i)
    ensures ReplaceStatusLine(a + b, status) == a + ReplaceStatusLine(b, status)
    decreases |a|
  {
    if |a| > 0 {
      var s := a + b;
      ReplaceStep(s, status);
      assert s[1..] == a[1..] + b;
      forall i: nat | i < |a[1..]|
        ensures !OccursAt(a[1..] + b, StatusMarker, i)
      {
        OccursShift(a, b, i);
      }
      ReplaceSkips(a[1..], b, status);
      assert s[0] == a[0];
      ConsAppend(a, ReplaceStatusLine(b, status));
    } else {
      assert a + b == b;
    }
  }

  /** Without the marker at its start, the rewrite copies the first character. */
  lemma ReplaceStep(s: string, status: string)
    requires PlainReplacement(status)
    requires |s| > 0 && !OccursAt(s, StatusMarker, 0)
    ensures ReplaceStatusLine(s, status) == [s[0]] + ReplaceStatusLine(s[1..], status)
  {
    MarkerPrefix(s);
  }

  /** An occurrence one step into the tail is an occurrence one step further in. */
  lemma OccursShift(a: string, b: string, i: nat)
    requires |a| > 0
    ensures OccursAt(a[1..] + b, StatusMarker, i) ==> OccursAt(a + b, StatusMarker, i + 1)
  {
    var s := a + b;
    assert s[1..] == a[1..] + b;
    if i + |StatusMarker| <= |s[1..]| {
      assert s[1..][i..i + |StatusMarker|] == s[i + 1..i + 1 + |StatusMarker|];
    }
  }

  /** The marker opens `s` exactly when it occurs at index 0. */
  lemma MarkerPrefix(s: string)
    ensures StatusMarker <= s <==> OccursAt(s, StatusMarker, 0)
  {
    if |StatusMarker| <= |s| {
      assert s[0..|StatusMarker|] == s[..|StatusMarker|];
    }
  }

  /** A literal without the marker's first character is copied unchanged. */
  lemma ReplaceSkipsLiteral(lit: string, b: string, status: string)
    requires PlainReplacement(status)
    requires StatusMarker[0] !in lit
    ensures ReplaceStatusLine(lit + b, status) == lit + ReplaceStatusLine(b, status)
  {
    forall i: nat | i < |lit|
      ensures !OccursAt(lit + b, StatusMarker, i)
    {
      assert (lit + b)[i] == lit[i];
      if i + |StatusMarker| <= |lit + b| {
        assert (lit + b)[i..i + |StatusMarker|][0] == lit[i];
      }
    }
    ReplaceSkips(lit, b, status);
  }

  /** A field without the marker, followed by a character the marker lacks, is copied unchanged. */
  lemma ReplaceSkipsField(f: string, rest: string, status: string)
    requires PlainReplacement(status)
    requires !Contains(f, StatusMarker)
    requires |rest| > 0 && rest[0] !in StatusMarker
    ensures ReplaceStatusLine(f + rest, status) == f + ReplaceStatusLine(rest, status)
  {
    forall i: nat | i < |f|
      ensures !OccursAt(f + rest, StatusMarker, i)
    {
      BarrierAt(f, rest, i);
    }
    ReplaceSkips(f, rest, status);
  }

  lemma BarrierAt(f: string, rest: string, i: nat)
    requires !Contains(f, StatusMarker)
    requires |rest| > 0 && rest[0] !in StatusMarker
    requires i < |f|
    ensures !OccursAt(f + rest, StatusMarker, i)
  {
    assert f + rest == f + [rest[0]] + rest[1..];
    OccursBeforeBarrierAt(f, rest[0], rest[1..], i);
  }

  lemma OccursBeforeBarrierAt(f: string, c: char, b: string, i: nat)
    requires !Contains(f, StatusMarker)
    requires c !in StatusMarker
    requires i < |f|
    ensures !OccursAt(f + [c] + b, StatusMarker, i)
  {
    OccursBeforeBarrierImplies(f, c, b, StatusMarker, i);
    assert !OccursAt(f, StatusMarker, i);
  }

  /** Contrapositive form of `Strings.OccursBeforeBarrier`, usable without a case split. */
  lemma OccursBeforeBarrierImplies(x: string, c: char, y: string, pat: string, j: nat)
    requires c !in pat
    requires j < |x|
    ensures OccursAt(x + [c] + y, pat, j) ==> OccursAt(x, pat, j)
  {
    if OccursAt(x + [c] + y, pat, j) {
      OccursBeforeBarrier(x, c, y, pat, j);
    }
  }

  /** A status the card can carry so that its line can be found and rewritten:
      non-empty, not starting with whitespace (which the greedy `\s*` would
      swallow) and on one line. */
  predicate StatusValue(s: string) {
    |s| > 0 && !IsSpace(s[0]) && '\n' !in s
  }

  /** The greedy whitespace run stops at the first non-space character. */
  lemma LeadingSpacesOf(ws: string, t: string)
    requires forall i :: 0 <= i < |ws| ==> IsSpace(ws[i])
    requires |t| > 0 && !IsSpace(t[0])
    ensures LeadingSpaces(ws + t) == |ws|
  {
    var x := ws + t;
    assert x[|ws|] == t[0];
    assert forall i :: 0 <= i < |ws| ==> x[i] == ws[i];
  }

  /** The greedy rest-of-line run stops at the first newline. */
  lemma RestOfLineOf(v: string, r: string)
    requires '\n' !in v
    requires |r| > 0 && r[0] == '\n'
    ensures RestOfLine(v + r) == |v|
  {
    var x := v + r;
    assert x[|v|] == r[0];
    assert forall i :: 0 <= i < |v| ==> x[i] == v[i];
  }

  /** The match of the status pattern on a marker, a whitespace run, a value
      that does not open with whitespace, and a line break. */
  lemma MatchOf(ws: string, v: string, r: string)
    requires forall i :: 0 <= i < |ws| ==> IsSpace(ws[i])
    requires |v| > 0 && !IsSpace(v[0]) && '\n' !in v
    requires |r| > 0 && r[0] == '\n'
    ensures StatusMarker <= StatusMarker + ws + v + r
    ensures MatchStatusLine(StatusMarker + ws + v + r) == (StatusMarker + ws, v, r)
  {
    var txt := StatusMarker + ws + v + r;
    assert txt[..|StatusMarker|] == StatusMarker;
    var after := txt[|StatusMarker|..];
    assert after == ws + (v + r);
    assert (v + r)[0] == v[0];
    LeadingSpacesOf(ws, v + r);
    assert after[|ws|..] == v + r;
    assert after[..|ws|] == ws;
    RestOfLineOf(v, r);
    assert (v + r)[..|v|] == v;
    assert (v + r)[|v|..] == r;
  }

  /** The status line and everything after it, rewritten. */
  lemma ReplaceStatusTail(s: string, text: string, s2: string)
    requires PlainReplacement(s2)
    requires StatusValue(s)
    requires !Contains(text, StatusMarker)
    ensures ReplaceStatusLine(StatusMarker + " " + s + "\n\n" + text, s2)
            == StatusMarker + " " + s2 + "\n\n" + text
  {
    var r := "\n\n" + text;
    Assoc(StatusMarker + " " + s, "\n\n", text);
    MatchOf(" ", s, r);
    assert ReplaceStatusLine(StatusMarker + " " + s + r, s2) == StatusMarker + " " + s2 + ReplaceStatusLine(r, s2);
    ReplaceSkipsLiteral("\n\n", text, s2);
    ReplaceWithoutMarker(text, s2);
    Assoc(StatusMarker + " " + s2, "\n\n", text);
  }

  /** Text without the marker is left as it is. */
  lemma {:induction false} ReplaceWithoutMarker(txt: string, status: string)
    requires PlainReplacement(status)
    requires !Contains(txt, StatusMarker)
    ensures ReplaceStatusLine(txt, status) == txt
    decreases |txt|
  {
    if |txt| > 0 {
      assert !OccursAt(txt, StatusMarker, 0);
      ReplaceStep(txt, status);
      ContainsShift(txt);
      ReplaceWithoutMarker(txt[1..], status);
      assert [txt[0]] + txt[1..] == txt;
    }
  }

  /** The fields a card may hold so that its status line is the only marker in it. */
  predicate CardFieldsWithoutMarker(lang: string, id: string, name: string, phone: string,
                                    category: string, text: string) {
    && !Contains(lang, StatusMarker) && !Contains(id, StatusMarker)
    && !Contains(name, StatusMarker) && !Contains(phone, StatusMarker)
    && !Contains(category, StatusMarker) && !Contains(text, StatusMarker)
  }

  /** Rewriting the status line of a rendered card gives the card rendered with
      the new status: `replace_status_line` is the edit partner of `card_text`. */
  lemma CardStatusRewrite(lang: string, id: string, name: string, phone: string,
                          category: string, text: string, s: string, s2: string)
    requires CardFieldsWithoutMarker(lang, id, name, phone, category, text)
    requires StatusValue(s) && PlainReplacement(s2)
    ensures ReplaceStatusLine(CardText(lang, id, name, phone, category, text, s), s2)
            == CardText(lang, id, name, phone, category, text, s2)
  {
    var t0 := "\n" + (StatusMarker + " " + s + "\n\n" + text);
    var u0 := "\n" + (StatusMarker + " " + s2 + "\n\n" + text);
    CardTailRewrite(s, text, s2);
    BarrierChars();
    CardLayer("\n📂 ", category, t0, u0, s2);
    var t1 := "\n📂 " + (category + t0);
    var u1 := "\n📂 " + (category + u0);
    CardLayer("\n📞 ", phone, t1, u1, s2);
    var t2 := "\n📞 " + (phone + t1);
    var u2 := "\n📞 " + (phone + u1);
    CardLayer("\n👤 ", name, t2, u2, s2);
    var t3 := "\n👤 " + (name + t2);
    var u3 := "\n👤 " + (name + u2);
    CardLayer("</b>\n🌐 ", lang, t3, u3, s2);
    var t4 := "</b>\n🌐 " + (lang + t3);
    var u4 := "</b>\n🌐 " + (lang + u3);
    CardLayer("🆔 <b>", id, t4, u4, s2);
  }

  /** The status line of the card, from the line break before it. */
  lemma CardTailRewrite(s: string, text: string, s2: string)
    requires PlainReplacement(s2)
    requires StatusValue(s)
    requires !Contains(text, StatusMarker)
    ensures ReplaceStatusLine("\n" + (StatusMarker + " " + s + "\n\n" + text), s2)
            == "\n" + (StatusMarker + " " + s2 + "\n\n" + text)
  {
    ReplaceStatusTail(s, text, s2);
    ReplaceSkipsLiteral("\n", StatusMarker + " " + s + "\n\n" + text, s2);
  }

  /** The characters that end each card field are not part of the marker. */
  lemma BarrierChars()
    ensures '\n' !in StatusMarker && '<' !in StatusMarker && StatusMarker[0] == '🔧'
  {
  }

  /** One field of the card with the literal before it and what follows it:
      the rewrite passes over both and carries on with the rest. */
  lemma CardLayer(lit: string, f: string, rest: string, rest2: string, s2: string)
    requires PlainReplacement(s2)
    requires StatusMarker[0] !in lit
    requires !Contains(f, StatusMarker)
    requires |rest| > 0 && rest[0] !in StatusMarker
    requires ReplaceStatusLine(rest, s2) == rest2
    ensures ReplaceStatusLine(lit + (f + rest), s2) == lit + (f + rest2)
  {
    ReplaceSkipsLiteral(lit, f + rest, s2);
    ReplaceSkipsField(f, rest, s2);
  }

  /** Pressing the same status twice leaves the card as pressing it once. */
  lemma CardStatusRewriteIdempotent(lang: string, id: string, name: string, phone: string,
                                    category: string, text: string, s: string, s2: string)
    requires CardFieldsWithoutMarker(lang, id, name, phone, category, text)
    requires StatusValue(s) && StatusValue(s2) && PlainReplacement(s2)
    ensures var once := ReplaceStatusLine(CardText(lang, id, name, phone, category, text, s), s2);
            ReplaceStatusLine(once, s2) == once
  {
    CardStatusRewrite(lang, id, name, phone, category, text, s, s2);
    CardStatusRewrite(lang, id, name, phone, category, text, s2, s2);
  }

  /** Layout of the card: the language on line 1, the status on line 5, a blank
      line 6 and the body's own lines after it. */
  lemma CardLayout(lang: string, id: string, name: string, phone: string,
                   category: string, text: string, status: string)
    requires SingleLine(lang) && SingleLine(id) && SingleLine(name) && SingleLine(phone)
    requires SingleLine(category) && SingleLine(status)
    ensures var lines := SplitLines(CardText(lang, id, name, phone, category, text, status));
            && |lines| >= 7
            && lines[0] == "🆔 <b>" + id + "</b>"
            && lines[1] == "🌐 " + lang
            && lines[5] == StatusMarker + " " + status
            && lines[6] == ""
            && lines[7..] == SplitLines(text)
  {
    CardLinesSingle(lang, id, name, phone, category, status);
    var ls := CardHeaderLines(lang, id, name, phone, category, text, status);
    SplitPrefixLines(ls, text);
    assert (ls + SplitLines(text))[7..] == SplitLines(text);
  }

  /** The card is its seven header lines put ahead of the body. */
  lemma CardHeaderLines(lang: string, id: string, name: string, phone: string,
                        category: string, text: string, status: string)
    returns (ls: seq<string>)
    ensures ls == ["🆔 <b>" + id + "</b>", "🌐 " + lang, "👤 " + name, "📞 " + phone,
                   "📂 " + category, StatusMarker + " " + status, ""]
    ensures CardText(lang, id, name, phone, category, text, status) == PrefixLines(ls, text)
  {
    var l6: seq<string> := [""];
    var l5 := [StatusMarker + " " + status] + l6;
    var l4 := ["📂 " + category] + l5;
    var l3 := ["📞 " + phone] + l4;
    var l2 := ["👤 " + name] + l3;
    var l1 := ["🌐 " + lang] + l2;
    ls := ["🆔 <b>" + id + "</b>"] + l1;
    PrefixLinesCons("", [], text);
    assert [""] + [] == l6;
    PrefixLinesCons(StatusMarker + " " + status, l6, text);
    PrefixLinesCons("📂 " + category, l5, text);
    PrefixLinesCons("📞 " + phone, l4, text);
    PrefixLinesCons("👤 " + name, l3, text);
    PrefixLinesCons("🌐 " + lang, l2, text);
    PrefixLinesCons("🆔 <b>" + id + "</b>", l1, text);
    CardLines(lang, id, name, phone, category, text, status);
  }

  /** Every line of the card's header stays on one line when its field does. */
  lemma CardLinesSingle(lang: string, id: string, name: string, phone: string,
                        category: string, status: string)
    requires SingleLine(lang) && SingleLine(id) && SingleLine(name) && SingleLine(phone)
    requires SingleLine(category) && SingleLine(status)
    ensures SingleLine("🆔 <b>" + id + "</b>") && SingleLine("🌐 " + lang)
    ensures SingleLine("👤 " + name) && SingleLine("📞 " + phone)
    ensures SingleLine("📂 " + category) && SingleLine(StatusMarker + " " + status)
  {
    SingleLineConcat("🆔 <b>", id);
    SingleLineConcat("🆔 <b>" + id, "</b>");
    SingleLineConcat("🌐 ", lang);
    SingleLineConcat("👤 ", name);
    SingleLineConcat("📞 ", phone);
    SingleLineConcat("📂 ", category);
    SingleLineConcat(StatusMarker + " ", status);
  }

  /** The card as its seven lines, each followed by a newline, and the body. */
  lemma CardLines(lang: string, id: string, name: string, phone: string,
                  category: string, text: string, status: string)
    ensures CardText(lang, id, name, phone, category, text, status)
            == ("🆔 <b>" + id + "</b>") + ("\n" + (("🌐 " + lang) + ("\n" + (("👤 " + name)
               + ("\n" + (("📞 " + phone) + ("\n" + (("📂 " + category) + ("\n"
               + ((StatusMarker + " " + status) + ("\n" + ("" + ("\n" + text)))))))))))))
  {
    var x := StatusMarker + " " + status + "\n\n" + text;
    assert "\n\n" == "\n" + "\n" && "" + ("\n" + text) == "\n" + text;
    Assoc(StatusMarker + " " + status, "\n\n", text);
    Assoc("\n", "\n", text);
    x := "\n" + x;
    assert "\n📂 " == "\n" + "📂 ";
    LineGroup("\n", "📂 ", category, x);
    x := "\n📂 " + (category + x);
    assert "\n📞 " == "\n" + "📞 ";
    LineGroup("\n", "📞 ", phone, x);
    x := "\n📞 " + (phone + x);
    assert "\n👤 " == "\n" + "👤 ";
    LineGroup("\n", "👤 ", name, x);
    x := "\n👤 " + (name + x);
    assert "</b>\n🌐 " == "</b>" + "\n" + "🌐 ";
    FirstLineGroup("🆔 <b>", id, "</b>", "\n", "🌐 ", lang, x);
  }

  /** A line break and a line's literal, then its field and the rest, regrouped by line. */
  lemma LineGroup<T>(nl: seq<T>, p: seq<T>, f: seq<T>, r: seq<T>)
    ensures (nl + p) + (f + r) == nl + ((p + f) + r)
  {
  }

  /** The first line regrouped: its literals around the field, then the second line. */
  lemma FirstLineGroup<T>(a: seq<T>, f: seq<T>, b: seq<T>, nl: seq<T>, p: seq<T>, g: seq<T>, r: seq<T>)
    ensures a + (f + ((b + nl + p) + (g + r))) == (a + f + b) + (nl + ((p + g) + r))
  {
  }

  lemma SingleLineConcat(a: string, b: string)
    requires SingleLine(a) && SingleLine(b)
    ensures SingleLine(a + b)
  {
    assert forall i :: |a| <= i < |a + b| ==> (a + b)[i] == b[i - |a|];
  }

  // ---------------------------------------------------------------------------
  // backend description

  datatype MediaKind = Photo | Document | Video | Voice

  /** One collected attachment: `{"type": kind, "file_id": ref}`. */
  datatype Attachment = Attachment(kind: MediaKind, fileId: string)

  function KindName(k: MediaKind): string {
    match k
    case Photo => "photo"
    case Document => "document"
    case Video => "video"
    case Voice => "voice"
  }

  /** The description line of attachment number `i`: its number, kind and file id. */
  function AttachmentLine(i: nat, a: Attachment): string {
    NatToString(i) + ". " + KindName(a.kind) + ": file_id=" + a.fileId
  }

  /** The numbered attachment lines, counting from `first`. */
  function AttachmentLines(atts: seq<Attachment>, first: nat): (lines: seq<string>)
    ensures |lines| == |atts|
    ensures forall i :: 0 <= i < |atts| ==> lines[i] == AttachmentLine(first + i, atts[i])
  {
    if |atts| == 0 then [] else [AttachmentLine(first, atts[0])] + AttachmentLines(atts[1..], first + 1)
  }

  const NoAttachmentsLine: string := "Вложения: нет"
  const AttachmentsHeader: string := "Вложения (отправлены в служебный канал):"

  /** The nine fixed lines that open the description. */
  function DescriptionHead(lang: string, name: string, phone: string, category: string,
                           text: string, id: string): seq<string>
  {
    [ "Внешний ID: " + id,
      "Язык: " + lang,
      "Имя: " + name,
      "Телефон: " + phone,
      "Категория: " + category,
      "",
      "Текст обращения:",
      text,
      "" ]
  }

  /** `build_bitrix_description`: the head lines and the attachment section, joined by newlines. */
  function BuildDescription(lang: string, name: string, phone: string, category: string,
                            text: string, atts: seq<Attachment>, id: string): string
  {
    var head := DescriptionHead(lang, name, phone, category, text, id);
    if |atts| > 0 then Join(head + [AttachmentsHeader] + AttachmentLines(atts, 1), '\n')
    else Join(head + [NoAttachmentsLine], '\n')
  }

  /** Splitting a join on a boundary splits each side. */
  lemma {:induction false} SplitOnConcat(x: string, y: string, sep: char)
    ensures SplitOn(x + [sep] + y, sep) == SplitOn(x, sep) + SplitOn(y, sep)
    decreases |x|
  {
    if |x| == 0 {
      assert x + [sep] + y == [sep] + y;
      assert ([sep] + y)[1..] == y;
    } else {
      var s := x + [sep] + y;
      assert s[0] == x[0] && s[1..] == x[1..] + [sep] + y;
      SplitOnConcat(x[1..], y, sep);
      var a, b := SplitOn(x[1..], sep), SplitOn(y, sep);
      if x[0] == sep {
        assert SplitOn(s, sep) == [[]] + (a + b);
        Assoc([[]], a, b);
      } else {
        assert SplitOn(s, sep) == [[x[0]] + (a + b)[0]] + (a + b)[1..];
        HeadTailAppend(a, b);
        Assoc([[x[0]] + a[0]], a[1..], b);
      }
    }
  }

  /** Splitting a join whose last parts hold no separator gives those parts
      back at the end, whatever the earlier parts hold. */
  lemma SplitJoinTail(head: seq<string>, tail: seq<string>, sep: char)
    requires |head| >= 1 && |tail| >= 1
    requires forall i :: 0 <= i < |tail| ==> sep !in tail[i]
    ensures SplitOn(Join(head + tail, sep), sep) == SplitOn(Join(head, sep), sep) + tail
  {
    JoinAppend(head, tail, sep);
    SplitOnConcat(Join(head, sep), Join(tail, sep), sep);
    SplitJoin(tail, sep);
  }

  /** Whatever the complaint text holds, the description ends with
      `Вложения: нет` when nothing is attached, and otherwise with the header
      followed by one line `i. type: file_id=…` per attachment, in order and
      numbered from 1 (read back by splitting on newlines, for file ids
      without newlines). */
  lemma DescriptionTail(lang: string, name: string, phone: string, category: string,
                        text: string, atts: seq<Attachment>, id: string)
    requires forall i :: 0 <= i < |atts| ==> '\n' !in atts[i].fileId
    ensures var parts := SplitOn(BuildDescription(lang, name, phone, category, text, atts, id), '\n');
            && |parts| >= |atts| + 1
            && (|atts| == 0 ==> parts[|parts| - 1] == NoAttachmentsLine)
            && (|atts| > 0 ==> parts[|parts| - |atts| - 1] == AttachmentsHeader)
            && forall i :: 0 <= i < |atts| ==> parts[|parts| - |atts| + i] == AttachmentLine(i + 1, atts[i])
  {
    var head := DescriptionHead(lang, name, phone, category, text, id);
    var tail := DescriptionTailLines(atts);
    Assoc(head, [AttachmentsHeader], AttachmentLines(atts, 1));
    assert BuildDescription(lang, name, phone, category, text, atts, id) == Join(head + tail, '\n');
    SplitJoinTail(head, tail, '\n');
    TailPositions(SplitOn(Join(head, '\n'), '\n'), atts);
  }

  /** Where the attachment section sits in lines that end with it. */
  lemma TailPositions(before: seq<string>, atts: seq<Attachment>)
    requires forall i :: 0 <= i < |atts| ==> '\n' !in atts[i].fileId
    ensures var parts := before + DescriptionTailLines(atts);
            && |parts| >= |atts| + 1
            && (|atts| == 0 ==> parts[|parts| - 1] == NoAttachmentsLine)
            && (|atts| > 0 ==> parts[|parts| - |atts| - 1] == AttachmentsHeader)
            && forall i :: 0 <= i < |atts| ==> parts[|parts| - |atts| + i] == AttachmentLine(i + 1, atts[i])
  {
  }

  /** The lines after the head: the no-attachments line, or the header and one
      line per attachment; none of them breaks the line. */
  function DescriptionTailLines(atts: seq<Attachment>): (tail: seq<string>)
    requires forall i :: 0 <= i < |atts| ==> '\n' !in atts[i].fileId
    ensures |atts| == 0 ==> tail == [NoAttachmentsLine]
    ensures |atts| > 0 ==> tail == [AttachmentsHeader] + AttachmentLines(atts, 1)
    ensures forall i :: 0 <= i < |tail| ==> '\n' !in tail[i]
  {
    if |atts| == 0 then
      assert '\n' !in NoAttachmentsLine;
      [NoAttachmentsLine]
    else
      var lines := AttachmentLines(atts, 1);
      forall i | 0 <= i < |lines|
        ensures '\n' !in lines[i]
      {
        AttachmentLineSingle(1 + i, atts[i]);
      }
      assert '\n' !in AttachmentsHeader;
      [AttachmentsHeader] + lines
  }

  lemma AttachmentLineSingle(i: nat, a: Attachment)
    requires '\n' !in a.fileId
    ensures '\n' !in AttachmentLine(i, a)
  {
    var digits := NatToString(i);
    assert forall k :: 0 <= k < |digits| ==> IsDigit(digits[k]);
    assert '\n' !in digits;
  }
}
