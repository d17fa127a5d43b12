/**
 * The capability search mini-language: `parseQuery`, which reads either a
 * skill comparison (`[skill:] <name> <op> <digits>`) or a name search, and
 * `passesSkillCmp`.
 *
 * The pattern `^(?:skill\s*:\s*)?([a-zA-Z][\w\s-]+)\s*(<=|>=|=|<|>)\s*(\d{1,3})$`
 * (case-insensitive) is decomposed deterministically: the name group cannot
 * hold ':' or a comparator character, so the prefix is taken exactly when
 * present, the comparator starts at the first '<', '>' or '=', and the rest
 * must be white space and one to three digits.
 */
module Skills {
  import opened Wrappers
  import opened Text

  datatype Comparator = Gt | Ge | Lt | Le | Eq

  datatype ParsedQuery =
    | Name(needle: string)
    | Skill(skill: string, cmp: Comparator, value: int)

  function ComparatorText(c: Comparator): string {
    match c
    case Gt => ">"
    case Ge => ">="
    case Lt => "<"
    case Le => "<="
    case Eq => "="
  }

  predicate IsOpChar(c: char) { c == '<' || c == '>' || c == '=' }

  /** `[\w\s-]` */
  predicate IsNameChar(c: char) { IsWordChar(c) || IsSpace(c) || c == '-' }

  /** The first index at or after `i` holding a comparator character, `|s|` if none. */
  function FindOp(s: string, i: nat): (r: nat)
    requires i <= |s|
    decreases |s| - i
    ensures i <= r <= |s|
    ensures forall j :: i <= j < r ==> !IsOpChar(s[j])
    ensures r < |s| ==> IsOpChar(s[r])
  {
    if i == |s| || IsOpChar(s[i]) then i else FindOp(s, i + 1)
  }

  /** The first index at or after `i` that is not white space, `|s|` if none (`\s*`). */
  function SkipSpaces(s: string, i: nat): (r: nat)
    requires i <= |s|
    decreases |s| - i
    ensures i <= r <= |s|
    ensures forall j :: i <= j < r ==> IsSpace(s[j])
    ensures r < |s| ==> !IsSpace(s[r])
  {
    if i == |s| || !IsSpace(s[i]) then i else SkipSpaces(s, i + 1)
  }

  /** Where the optional `skill\s*:\s*` prefix ends, when `t` has it. */
  function PrefixEnd(t: string): (r: Option<nat>)
    ensures r.Some? ==> r.value <= |t|
  {
    if |t| >= 5 && Lower(t[..5]) == "skill" then
      var j := SkipSpaces(t, 5);
      if j < |t| && t[j] == ':' then Some(SkipSpaces(t, j + 1)) else None
    else None
  }

  /** The comparator at index `c` of `b` and its length: `<=`/`>=` before `<`/`>`. */
  function OpAt(b: string, c: nat): (Comparator, nat)
    requires c < |b| && IsOpChar(b[c])
  {
    if b[c] != '=' && c + 1 < |b| && b[c + 1] == '=' then (if b[c] == '<' then Le else Ge, 2)
    else (if b[c] == '<' then Lt else if b[c] == '>' then Gt else Eq, 1)
  }

  /** The groups of `([a-zA-Z][\w\s-]+)\s*(op)\s*(\d{1,3})$` matched against the whole of `b`. */
  function MatchBody(b: string): Option<(string, Comparator, string)> {
    var c := FindOp(b, 0);
    if c == |b| || c < 2 || !IsLetter(b[0]) || !(forall j :: 1 <= j < c ==> IsNameChar(b[j])) then None
    else
      var (op, len) := OpAt(b, c);
      var k := SkipSpaces(b, c + len);
      var ds := b[k..];
      if 1 <= |ds| <= 3 && AllDigits(ds) then Some((b[..c], op, ds)) else None
  }

  /** The whole pattern, with the prefix taken when present. */
  function MatchSkill(t: string): Option<(string, Comparator, string)> {
    match PrefixEnd(t)
    case Some(k) => MatchBody(t[k..])
    case None => MatchBody(t)
  }

  function Min(a: int, b: int): int { if a <= b then a else b }
  function Max(a: int, b: int): int { if a >= b then a else b }

  /**
   * `parseQuery`: `None` is `null` (blank input); a skill comparison gives the
   * trimmed name, the comparator and the value clamped to 0..100; anything
   * else searches names by the trimmed, lower-cased input.
   */
  function ParseQuery(q: string): (r: Option<ParsedQuery>)
    ensures r.None? <==> Trim(q) == ""
    ensures r.Some? && r.value.Skill? ==> 0 <= r.value.value <= 100
    ensures r.Some? && r.value.Skill? ==> r.value.skill != "" && IsLetter(r.value.skill[0])
    ensures r.Some? && r.value.Name? ==> r.value.needle == Lower(Trim(q))
  {
    var trimmed := Trim(q);
    if trimmed == "" then None
    else
      match MatchSkill(trimmed)
      case Some((name, cmp, digits)) =>
        assert IsLetter(name[0]) && !IsSpace(name[0]);
        TrimKeepsFirst(name);
        Some(Skill(Trim(name), cmp, Max(0, Min(100, DigitsValue(digits)))))
      case None => Some(Name(Lower(trimmed)))
  }

  /** `passesSkillCmp`: the named comparison of `v` against `target`. */
  function PassesSkillCmp(v: int, cmp: Comparator, target: int): bool {
    match cmp
    case Gt => v > target
    case Ge => v >= target
    case Lt => v < target
    case Le => v <= target
    case Eq => v == target
  }

  // ---------------------------------------------------------------------------
  // Lemmas

  lemma TrimKeepsFirst(s: string)
    requires s != [] && !IsSpace(s[0])
    ensures Trim(s) != [] && Trim(s)[0] == s[0]
  {
    TrimEndKeepsFirst(s);
  }

  lemma {:induction false} TrimEndKeepsFirst(s: string)
    requires s != [] && !IsSpace(s[0])
    ensures TrimEnd(s) != [] && TrimEnd(s)[0] == s[0]
  {
    if IsSpace(s[|s| - 1]) {
      TrimEndKeepsFirst(s[..|s| - 1]);
    }
  }

  /** `>` and `<=` are complementary, as are `<` and `>=`; `=` is both `>=` and `<=`. */
  lemma ComparatorsComplement(v: int, t: int)
    ensures PassesSkillCmp(v, Gt, t) <==> !PassesSkillCmp(v, Le, t)
    ensures PassesSkillCmp(v, Lt, t) <==> !PassesSkillCmp(v, Ge, t)
    ensures PassesSkillCmp(v, Eq, t) <==> PassesSkillCmp(v, Ge, t) && PassesSkillCmp(v, Le, t)
  {
  }

  /** The operator search stops at the first comparator character at or after `i`. */
  lemma {:induction false} FindOpAt(s: string, i: nat, c: nat)
    requires i <= c < |s| && IsOpChar(s[c])
    requires forall j :: i <= j < c ==> !IsOpChar(s[j])
    ensures FindOp(s, i) == c
    decreases c - i
  {
    if i < c {
      FindOpAt(s, i + 1, c);
    }
  }

  /** A skill query as it would be typed: name, comparator and digits, separated by single spaces. */
  function Query(n: string, op: Comparator, ds: string): string {
    n + " " + ComparatorText(op) + " " + ds
  }

  /** The name of a query: a letter, then at least one `[\w\s-]`, not ending in white space. */
  predicate WellFormedName(n: string) {
    |n| >= 2 && IsLetter(n[0]) && !IsSpace(n[|n| - 1]) && forall j :: 0 <= j < |n| ==> IsNameChar(n[j])
  }

  lemma QueryShape(n: string, op: Comparator, ds: string)
    requires WellFormedName(n) && ds != [] && AllDigits(ds)
    ensures var b := Query(n, op, ds);
      && FindOp(b, 0) == |n| + 1
      && OpAt(b, |n| + 1) == (op, |ComparatorText(op)|)
      && SkipSpaces(b, |n| + 1 + |ComparatorText(op)|) == |n| + 2 + |ComparatorText(op)|
      && b[|n| + 2 + |ComparatorText(op)|..] == ds
      && b[..|n| + 1] == n + " "
      && Trim(b) == b
      && PrefixEnd(b) == None
  {
    QueryOp(n, op, ds);
    QueryRest(n, op, ds);
    QueryNoColon(n, op, ds);
  }

  lemma QueryOp(n: string, op: Comparator, ds: string)
    requires WellFormedName(n) && ds != [] && AllDigits(ds)
    ensures var b := Query(n, op, ds);
      && FindOp(b, 0) == |n| + 1
      && OpAt(b, |n| + 1) == (op, |ComparatorText(op)|)
  {
    var b := Query(n, op, ds);
    var c := |n| + 1;
    var o := ComparatorText(op);
    assert b[c] == o[0];
    forall j | 0 <= j < c ensures !IsOpChar(b[j]) {
      if j < |n| {
        assert b[j] == n[j];
      }
    }
    FindOpAt(b, 0, c);
    assert b[c + |o|] == ' ';
    if |o| == 2 {
      assert b[c + 1] == o[1];
    }
  }

  lemma QueryRest(n: string, op: Comparator, ds: string)
    requires WellFormedName(n) && ds != [] && AllDigits(ds)
    ensures var b := Query(n, op, ds);
      && SkipSpaces(b, |n| + 1 + |ComparatorText(op)|) == |n| + 2 + |ComparatorText(op)|
      && b[|n| + 2 + |ComparatorText(op)|..] == ds
      && b[..|n| + 1] == n + " "
  {
    QueryDigits(n, op, ds);
    QueryName(n, op, ds);
  }

  /** After the comparator comes one space, then the digits. */
  lemma QueryDigits(n: string, op: Comparator, ds: string)
    requires ds != [] && AllDigits(ds)
    ensures SkipSpaces(Query(n, op, ds), |n| + 1 + |ComparatorText(op)|) == |n| + 2 + |ComparatorText(op)|
    ensures Query(n, op, ds)[|n| + 2 + |ComparatorText(op)|..] == ds
  {
    var o := ComparatorText(op);
    var head := n + " " + o + " ";
    var b := head + ds;
    var k := |n| + 1 + |o|;
    assert b == Query(n, op, ds);
    assert |head| == k + 1 && head[k] == ' ';
    ConcatSlices(head, ds);
    assert b[k] == head[k];
    assert b[k + 1] == ds[0];
    SkipOneSpace(b, k);
  }

  /** One space followed by something else is skipped in one step. */
  lemma SkipOneSpace(s: string, i: nat)
    requires i + 1 < |s| && s[i] == ' ' && IsDigit(s[i + 1])
    ensures SkipSpaces(s, i) == i + 1
  {
    assert SkipSpaces(s, i) == SkipSpaces(s, i + 1);
  }

  /** The query starts with the name and one space. */
  lemma QueryName(n: string, op: Comparator, ds: string)
    ensures Query(n, op, ds)[..|n| + 1] == n + " "
  {
    var o := ComparatorText(op);
    PrefixOfConcat(n + " " + o + " ", ds, |n| + 1);
    PrefixOfConcat(n + " " + o, " ", |n| + 1);
    PrefixOfConcat(n + " ", o, |n| + 1);
  }

  lemma QueryNoColon(n: string, op: Comparator, ds: string)
    requires WellFormedName(n) && ds != [] && AllDigits(ds)
    ensures Trim(Query(n, op, ds)) == Query(n, op, ds)
    ensures PrefixEnd(Query(n, op, ds)) == None
    ensures MatchSkill(Query(n, op, ds)) == MatchBody(Query(n, op, ds))
  {
    var b := Query(n, op, ds);
    assert b[0] == n[0] && b[|b| - 1] == ds[|ds| - 1];
    TrimNoSpace(b);
    forall j | 0 <= j < |b| ensures b[j] != ':' {
      if j < |n| {
        assert b[j] == n[j];
      } else if j >= |b| - |ds| {
        assert b[j] == ds[j - (|b| - |ds|)];
      } else {
        var o := ComparatorText(op);
        if |n| < j < |n| + 1 + |o| {
          assert b[j] == o[j - |n| - 1];
        }
      }
    }
    NoColonNoPrefix(b);
  }

  lemma MatchBodyQuery(n: string, op: Comparator, ds: string)
    requires WellFormedName(n)
    requires 1 <= |ds| <= 3 && AllDigits(ds)
    ensures MatchBody(Query(n, op, ds)) == Some((n + " ", op, ds))
  {
    var b := Query(n, op, ds);
    QueryOp(n, op, ds);
    QueryRest(n, op, ds);
    forall j | 1 <= j < |n| + 1 ensures IsNameChar(b[j]) {
      if j < |n| {
        assert b[j] == n[j];
      }
    }
  }

  lemma NoColonNoPrefix(t: string)
    requires ':' !in t
    ensures PrefixEnd(t) == None
  {
    if |t| >= 5 && Lower(t[..5]) == "skill" {
      var j := SkipSpaces(t, 5);
      if j < |t| {
        assert t[j] in t;
      }
    }
  }

  lemma TrimName(n: string)
    requires n != [] && !IsSpace(n[0]) && !IsSpace(n[|n| - 1])
    ensures Trim(n + " ") == n
  {
    var s := n + " ";
    assert TrimStart(s) == s;
    assert s[..|s| - 1] == n;
    assert TrimEnd(s) == TrimEnd(n);
    TrimNoSpace(n);
    assert TrimStart(n) == n;
  }

  /** Round trip: "<name> <op> <digits>" parses to that name, comparator and value clamped to 100. */
  lemma ParseSkillQuery(n: string, op: Comparator, ds: string)
    requires WellFormedName(n)
    requires 1 <= |ds| <= 3 && AllDigits(ds)
    ensures ParseQuery(Query(n, op, ds)) == Some(Skill(n, op, Min(100, DigitsValue(ds))))
  {
    QueryNoColon(n, op, ds);
    MatchBodyQuery(n, op, ds);
    TrimName(n);
    ParseOfMatch(Query(n, op, ds), n + " ", op, ds);
  }

  /** The same with a "skill: " prefix. */
  lemma ParsePrefixedSkillQuery(n: string, op: Comparator, ds: string)
    requires WellFormedName(n)
    requires 1 <= |ds| <= 3 && AllDigits(ds)
    ensures ParseQuery("skill: " + Query(n, op, ds)) == Some(Skill(n, op, Min(100, DigitsValue(ds))))
  {
    var b := Query(n, op, ds);
    MatchBodyQuery(n, op, ds);
    QueryEnds(n, op, ds);
    SkillPrefix(b);
    TrimName(n);
    ParseOfMatch("skill: " + b, n + " ", op, ds);
  }

  /** Trimmed text that the skill pattern matches parses to the trimmed name, the comparator and the clamped value. */
  lemma ParseOfMatch(t: string, name: string, op: Comparator, ds: string)
    requires t != "" && Trim(t) == t && AllDigits(ds)
    requires MatchSkill(t) == Some((name, op, ds))
    ensures ParseQuery(t) == Some(Skill(Trim(name), op, Max(0, Min(100, DigitsValue(ds)))))
  {
  }

  /** A query starts with its name and ends with its digits. */
  lemma QueryEnds(n: string, op: Comparator, ds: string)
    requires n != [] && ds != []
    ensures var b := Query(n, op, ds); b != [] && b[0] == n[0] && b[|b| - 1] == ds[|ds| - 1]
  {
  }

  /** "skill: " is taken as the prefix. */
  lemma SkillPrefix(b: string)
    requires b != [] && !IsSpace(b[0]) && !IsSpace(b[|b| - 1])
    ensures var p := "skill: " + b; Trim(p) == p && PrefixEnd(p) == Some(7) && p[7..] == b
    ensures MatchSkill("skill: " + b) == MatchBody(b)
  {
    var p := "skill: " + b;
    assert p[0] == 's' && p[|p| - 1] == b[|b| - 1];
    TrimNoSpace(p);
    assert p[..5] == "skill";
    assert Lower("skill") == "skill";
    assert SkipSpaces(p, 5) == 5;
    assert SkipSpaces(p, 6) == 7;
    assert p[7..] == b;
  }

  /** The documented example with the "skill:" prefix. */
  lemma ParseQueryExample()
    ensures ParseQuery("skill: Sandwich >= 70") == Some(Skill("Sandwich", Ge, 70))
  {
    ExampleTexts();
    ParsePrefixedSkillQuery("Sandwich", Ge, "70");
  }

  /** A value above 100 is clamped. */
  lemma ParseQueryClamp()
    ensures ParseQuery("Coffee > 150") == Some(Skill("Coffee", Gt, 100))
  {
    ExampleTexts();
    ParseSkillQuery("Coffee", Gt, "150");
  }

  /** The example queries, spelled as `Query` builds them. */
  lemma ExampleTexts()
    ensures WellFormedName("Sandwich") && WellFormedName("Coffee")
    ensures "skill: " + Query("Sandwich", Ge, "70") == "skill: Sandwich >= 70"
    ensures Query("Coffee", Gt, "150") == "Coffee > 150"
    ensures DigitsValue("70") == 70 && DigitsValue("150") == 150
  {
    assert DigitsValue("15") == 15;
  }

  /** With more than three digits the skill pattern fails and the text becomes a name search. */
  lemma TooManyDigitsIsName(n: string, op: Comparator, ds: string)
    requires WellFormedName(n)
    requires |ds| >= 4 && AllDigits(ds)
    ensures ParseQuery(Query(n, op, ds)) == Some(Name(Lower(Query(n, op, ds))))
  {
    QueryShape(n, op, ds);
    assert MatchBody(Query(n, op, ds)) == None;
  }

  /** Text that does not start with a letter cannot carry the "skill:" prefix, so it is a name search. */
  lemma NonLetterIsName(q: string)
    requires Trim(q) != "" && !IsLetter(Trim(q)[0])
    ensures ParseQuery(q) == Some(Name(Lower(Trim(q))))
  {
    var t := Trim(q);
    if |t| >= 5 {
      assert Lower(t[..5])[0] == LowerChar(t[0]) != 's';
    }
  }

  /** After the "skill:" prefix, a body that does not start with a letter leaves a name search of the whole text. */
  lemma NonLetterPrefixedIsName(b: string)
    requires b != [] && !IsSpace(b[0]) && !IsSpace(b[|b| - 1]) && !IsLetter(b[0])
    ensures ParseQuery("skill: " + b) == Some(Name(Lower("skill: " + b)))
  {
    SkillPrefix(b);
  }

  /** "skill: 1abc > 5" is a name search. */
  lemma NonLetterPrefixedExample()
    ensures ParseQuery("skill: 1abc > 5") == Some(Name("skill: 1abc > 5"))
  {
    NonLetterExampleText();
    NonLetterPrefixedIsName("1abc > 5");
  }

  /** The example text, spelled as prefix and body. */
  lemma NonLetterExampleText()
    ensures var b := "1abc > 5"; b != [] && !IsSpace(b[0]) && !IsSpace(b[|b| - 1]) && !IsLetter(b[0])
    ensures "skill: " + "1abc > 5" == "skill: 1abc > 5"
    ensures Lower("skill: 1abc > 5") == "skill: 1abc > 5"
  {
    LowerFixed("skill: 1abc > 5");
  }
}
