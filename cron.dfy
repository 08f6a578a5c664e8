// Recurrence validator. A schedule's cron expression is split into
// whitespace-separated fields, and it is valid when there are exactly five
// fields (minute, hour, day of month, month, day of week) and every field is
// `*`, `*` with a step of at least 1, or a number within the field's range.
module Cron {

  /** ASCII white space: space, tab, line feed, vertical tab, form feed, carriage return. */
  predicate IsSpace(c: char) {
    c == ' ' || '\t' <= c <= '\r'
  }

  predicate IsDigit(c: char) {
    '0' <= c <= '9'
  }

  /** A non-empty run of characters without white space. */
  predicate IsWord(w: string) {
    |w| > 0 && forall i :: 0 <= i < |w| ==> !IsSpace(w[i])
  }

  /** Length of the longest prefix of `s` that holds no white space. */
  function WordLength(s: string): (n: nat)
    ensures n <= |s|
    ensures forall i :: 0 <= i < n ==> !IsSpace(s[i])
    ensures n < |s| ==> IsSpace(s[n])
  {
    if s == [] || IsSpace(s[0]) then 0 else 1 + WordLength(s[1..])
  }

  /** The whitespace-separated fields of `s`, in order. */
  function Fields(s: string): (ws: seq<string>)
    ensures forall i :: 0 <= i < |ws| ==> IsWord(ws[i])
    decreases |s|
  {
    if s == [] then []
    else if IsSpace(s[0]) then Fields(s[1..])
    else
      var n := WordLength(s);
      [s[..n]] + Fields(s[n..])
  }

  /** The fields joined back with single spaces: the inverse of Fields on words. */
  function Unfields(ws: seq<string>): string {
    if ws == [] then ""
    else if |ws| == 1 then ws[0]
    else ws[0] + " " + Unfields(ws[1..])
  }

  predicate IsNumber(s: string) {
    |s| > 0 && forall i :: 0 <= i < |s| ==> IsDigit(s[i])
  }

  /** The decimal value of a run of digits. */
  function NumberValue(s: string): nat
    requires IsNumber(s)
    decreases |s|
  {
    var d := (s[|s| - 1] as int - '0' as int) as nat;
    if |s| == 1 then d else 10 * NumberValue(s[..|s| - 1]) + d
  }

  /**
   * The range of each field, by position: minute 0-59, hour 0-23,
   * day of month 1-31, month 1-12, day of week 0-6.
   */
  const FieldLow: seq<nat> := [0, 0, 1, 1, 0]
  const FieldHigh: seq<nat> := [59, 23, 31, 12, 6]

  // One cron field whose values lie in lo..hi: `*`, a step `*/n` with n at
  // least 1, or a single number within the range.
  predicate IsCronField(f: string, lo: nat, hi: nat) {
    f == "*" ||
    (|f| > 2 && f[..2] == "*/" && IsNumber(f[2..]) && NumberValue(f[2..]) >= 1) ||
    (IsNumber(f) && lo <= NumberValue(f) <= hi)
  }

  /** A five-field cron expression, every field within its position's range. */
  predicate ValidCron(expr: string) {
    var ws := Fields(expr);
    |ws| == 5 && forall i :: 0 <= i < 5 ==> IsCronField(ws[i], FieldLow[i], FieldHigh[i])
  }

  /** A word followed by nothing or by white space is the word scanned by WordLength. */
  lemma {:induction false} WordLengthOfWord(w: string, t: string)
    requires IsWord(w)
    requires t == [] || IsSpace(t[0])
    ensures WordLength(w + t) == |w|
    decreases |w|
  {
    var s := w + t;
    assert s[0] == w[0];
    if |w| > 1 {
      assert s[1..] == w[1..] + t;
      WordLengthOfWord(w[1..], t);
    } else {
      assert s[1..] == t;
    }
  }

  /** Scanning a word that ends at white space (or at the end) yields that word first. */
  lemma FieldsCons(w: string, t: string)
    requires IsWord(w)
    requires t == [] || IsSpace(t[0])
    ensures Fields(w + t) == [w] + Fields(t)
  {
    var s := w + t;
    WordLengthOfWord(w, t);
    assert s[0] == w[0];
    assert s[..|w|] == w;
    assert s[|w|..] == t;
  }

  /** Round trip: splitting words joined by single spaces gives the words back. */
  lemma {:induction false} FieldsUnfields(ws: seq<string>)
    requires forall i :: 0 <= i < |ws| ==> IsWord(ws[i])
    ensures Fields(Unfields(ws)) == ws
  {
    if ws == [] {
    } else if |ws| == 1 {
      FieldsCons(ws[0], "");
      assert ws[0] + "" == ws[0];
    } else {
      var rest := Unfields(ws[1..]);
      assert ws[0] + " " + rest == ws[0] + (" " + rest);
      FieldsCons(ws[0], " " + rest);
      assert (" " + rest)[1..] == rest;
      FieldsUnfields(ws[1..]);
      assert ws == [ws[0]] + ws[1..];
    }
  }

  /** Every cron field is a word, so it survives the split into fields. */
  lemma CronFieldIsWord(f: string, lo: nat, hi: nat)
    requires IsCronField(f, lo, hi)
    ensures IsWord(f)
  {
    if f != "*" && !IsNumber(f) {
      assert f[0] == f[..2][0] && f[1] == f[..2][1];
      forall i | 2 <= i < |f| ensures !IsSpace(f[i]) {
        assert f[i] == f[2..][i - 2];
      }
    }
  }

  /**
   * Words joined by spaces form a valid expression exactly when there are
   * five of them and each is a cron field within its position's range.
   */
  lemma ValidCronUnfields(ws: seq<string>)
    requires forall i :: 0 <= i < |ws| ==> IsWord(ws[i])
    ensures ValidCron(Unfields(ws)) <==>
      |ws| == 5 && forall i :: 0 <= i < 5 ==> IsCronField(ws[i], FieldLow[i], FieldHigh[i])
  {
    FieldsUnfields(ws);
  }

  /** `*` is a field of every range. */
  lemma StarField(lo: nat, hi: nat)
    ensures IsCronField("*", lo, hi)
  {
  }

  // A step field "*/n" is a field of every range exactly when n is at least 1.
  lemma StepField(n: string, lo: nat, hi: nat)
    requires IsNumber(n)
    ensures IsCronField("*/" + n, lo, hi) <==> NumberValue(n) >= 1
  {
    var f := "*/" + n;
    assert f[0] == '*' && !IsDigit(f[0]);
    assert f[..2] == "*/" && f[2..] == n;
  }

  // "*/1 * * * *" (every minute) is valid.
  lemma EveryMinuteValid()
    ensures ValidCron("*/1 * * * *")
  {
    var ws := ["*/1", "*", "*", "*", "*"];
    assert "*/1" == "*/" + "1";
    StepField("1", FieldLow[0], FieldHigh[0]);
    forall i | 1 <= i < 5 ensures IsCronField(ws[i], FieldLow[i], FieldHigh[i]) {
      StarField(FieldLow[i], FieldHigh[i]);
    }
    assert Unfields(ws) == "*/1 * * * *";
    ValidCronUnfields(ws);
  }

  /** `foo` is a single field, and not a cron field at that: it is rejected. */
  lemma FooInvalid()
    ensures !ValidCron("foo")
  {
  }

  /** Minute 60 is out of range. */
  lemma MinuteSixtyInvalid()
    ensures !ValidCron("60 * * * *")
  {
    var ws := ["60", "*", "*", "*", "*"];
    assert "60"[..1] == "6";
    assert NumberValue("60") == 60;
    assert !IsCronField("60", 0, 59);
    assert Unfields(ws) == "60 * * * *";
    ValidCronUnfields(ws);
  }

  // "*/0 * * * *": a step of zero is rejected.
  lemma ZeroStepInvalid()
    ensures !ValidCron("*/0 * * * *")
  {
    var ws := ["*/0", "*", "*", "*", "*"];
    assert "*/0" == "*/" + "0";
    StepField("0", FieldLow[0], FieldHigh[0]);
    assert IsWord("*/0");
    assert Unfields(ws) == "*/0 * * * *";
    ValidCronUnfields(ws);
  }
}
