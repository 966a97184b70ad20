/** The tone marker of app/services/tone_service.py: thirteen fixed rules,
    applied in table order, each replacing every whole-word, case-insensitive
    occurrence of a plain form by its toned form. */
module ToneService {
  import opened Common

  datatype Rule = Rule(plain: string, toned: string)

  /** The substitution table, in the order the loop visits it. */
  const Rules: seq<Rule> := [
    Rule("omo", "ọmọ"),
    Rule("baba", "bàbá"),
    Rule("mama", "màmá"),
    Rule("mi", "mi"),
    Rule("re", "rẹ"),
    Rule("wa", "wa"),
    Rule("won", "wọn"),
    Rule("ti", "tí"),
    Rule("ni", "ní"),
    Rule("si", "sí"),
    Rule("ko", "kò"),
    Rule("se", "ṣe"),
    Rule("je", "jẹ")
  ]

  /** A character of the regular-expression class `\w`: ASCII letters, digits
      and '_', plus the Latin letters of U+00C0..U+024F and U+1E00..U+1EFF
      that carry Yoruba's tone marks and under-dots. Combining marks such as
      U+0300 are not word characters, for Python either. */
  predicate IsWordChar(c: char)
  {
    || 'a' <= c <= 'z' || 'A' <= c <= 'Z' || '0' <= c <= '9' || c == '_'
    || ('\U{00C0}' <= c <= '\U{024F}' && c != '\U{00D7}' && c != '\U{00F7}')
    || '\U{1E00}' <= c <= '\U{1EFF}'
  }

  /** `\b` at position `i`: a word character on exactly one side of it, the
      ends of the text counting as non-word. */
  predicate Boundary(s: string, i: nat): (b: bool)
    requires i <= |s|
    ensures i == 0 ==> (b <==> |s| > 0 && IsWordChar(s[0]))
    ensures i == |s| ==> (b <==> |s| > 0 && IsWordChar(s[|s| - 1]))
  {
    (i > 0 && IsWordChar(s[i - 1])) != (i < |s| && IsWordChar(s[i]))
  }

  /** `\bp\b` matches at position `i` of `s`, ignoring case. */
  predicate MatchAt(s: string, p: string, i: nat)
  {
    i + |p| <= |s| && Boundary(s, i) && EqualCI(s[i..i + |p|], p) && Boundary(s, i + |p|)
  }

  /** The shape of every plain form in the table: lower-case ASCII letters. */
  predicate IsPlainForm(p: string)
  {
    |p| > 0 && forall i :: 0 <= i < |p| ==> 'a' <= p[i] <= 'z'
  }

  /** A single token of word characters. */
  predicate IsWord(w: string)
  {
    |w| > 0 && forall i :: 0 <= i < |w| ==> IsWordChar(w[i])
  }

  predicate WellFormed(rules: seq<Rule>)
  {
    forall k :: 0 <= k < |rules| ==> IsPlainForm(rules[k].plain) && IsWord(rules[k].toned)
  }

  /** Every toned form has as many characters as its plain form. */
  predicate LengthPreserving(rules: seq<Rule>)
  {
    forall k :: 0 <= k < |rules| ==> |rules[k].toned| == |rules[k].plain|
  }

  /** No rule's output is picked up again by a later rule. */
  predicate NoChaining(rules: seq<Rule>)
  {
    forall i, j :: 0 <= i < j < |rules| ==> !EqualCI(rules[i].toned, rules[j].plain)
  }

  /** `re.sub(r'\b' + p + r'\b', t, s, flags=re.IGNORECASE)`, from position
      `i` of `s` on: matches are looked for in the input, left to right and
      without overlap, and each one is replaced by `t`. */
  function SubFrom(s: string, p: string, t: string, i: nat): (r: string)
    requires |p| > 0 && i <= |s|
    ensures |t| == |p| ==> |r| == |s| - i
    decreases |s| - i
  {
    if i == |s| then []
    else if MatchAt(s, p, i) then t + SubFrom(s, p, t, i + |p|)
    else [s[i]] + SubFrom(s, p, t, i + 1)
  }

  /** One substitution pass of the loop. */
  function Substitute(s: string, r: Rule): string
    requires |r.plain| > 0
  {
    SubFrom(s, r.plain, r.toned, 0)
  }

  predicate NonEmptyPlains(rules: seq<Rule>)
  {
    forall k :: 0 <= k < |rules| ==> |rules[k].plain| > 0
  }

  /** The rules applied one after the other, each to the previous output. */
  function ApplyRules(s: string, rules: seq<Rule>): (r: string)
    requires NonEmptyPlains(rules)
    ensures LengthPreserving(rules) ==> |r| == |s|
  {
    if rules == [] then s
    else
      var init := rules[..|rules| - 1];
      assert LengthPreserving(rules) ==> LengthPreserving(init) by {
        if LengthPreserving(rules) {
          forall k | 0 <= k < |init| ensures |init[k].toned| == |init[k].plain| {
            assert init[k] == rules[k];
          }
        }
      }
      Substitute(ApplyRules(s, init), rules[|rules| - 1])
  }

  /** `add_tone_marks`: empty text comes back as is; otherwise the loop runs
      the whole table over the text in order. */
  method AddToneMarks(text: string) returns (result: string)
    ensures text == [] ==> result == []
    ensures |result| == |text|
    ensures result == ApplyRules(text, Rules)
  {
    if text == [] {
      ApplyRulesNoMatch(text, Rules);
      return text;
    }
    result := text;
    for k := 0 to |Rules|
      invariant result == ApplyRules(text, Rules[..k])
    {
      assert Rules[..k + 1][..k] == Rules[..k];
      result := Substitute(result, Rules[k]);
    }
    assert Rules[..|Rules|] == Rules;
    RulesKeepLength();
  }

  // ---------------------------------------------------------------------
  // Word-level reference: what the table does to one whole word.

  /** The index of the first rule whose plain form equals `w` up to case. */
  function FirstRule(w: string, rules: seq<Rule>): (r: Option<nat>)
    ensures r.Some? ==> r.value < |rules| && EqualCI(w, rules[r.value].plain)
    ensures r.Some? ==> forall j :: 0 <= j < r.value ==> !EqualCI(w, rules[j].plain)
    ensures r.None? ==> forall j :: 0 <= j < |rules| ==> !EqualCI(w, rules[j].plain)
  {
    if rules == [] then None
    else if EqualCI(w, rules[0].plain) then Some(0)
    else match FirstRule(w, rules[1..])
      case None => None
      case Some(k) => Some(k + 1)
  }

  /** What a single word becomes: the toned form of the first rule it matches,
      or the word itself. */
  function ToneOf(w: string, rules: seq<Rule>): string
  {
    match FirstRule(w, rules)
    case Some(k) => rules[k].toned
    case None => w
  }

  // ---------------------------------------------------------------------
  // Lemmas.

  lemma {:induction false} EqualCIAt(x: string, y: string, k: nat)
    requires EqualCI(x, y) && k < |x|
    ensures |y| == |x| && LowerChar(x[k]) == LowerChar(y[k])
    decreases k
  {
    if k > 0 {
      EqualCIAt(x[1..], y[1..], k - 1);
    }
  }

  /** A text position that matches a plain form holds letters only. */
  lemma MatchedCharIsLetter(s: string, p: string, i: nat, k: nat)
    requires IsPlainForm(p) && i + |p| <= |s| && EqualCI(s[i..i + |p|], p) && k < |p|
    ensures IsWordChar(s[i + k]) && LowerChar(s[i + k]) == p[k]
  {
    EqualCIAt(s[i..i + |p|], p, k);
  }

  /** Positions where nothing matches are copied unchanged. */
  lemma {:induction false} SubFromUnchanged(s: string, p: string, t: string, i: nat)
    requires |p| > 0 && i <= |s|
    requires forall j :: i <= j < |s| ==> !MatchAt(s, p, j)
    ensures SubFrom(s, p, t, i) == s[i..]
    decreases |s| - i
  {
    if i < |s| {
      SubFromUnchanged(s, p, t, i + 1);
      assert s[i..] == [s[i]] + s[i + 1..];
    }
  }

  lemma BoundaryAfterSeparator(a: string, c: char, b: string, j: nat)
    requires !IsWordChar(c) && j <= |b|
    ensures Boundary(a + [c] + b, |a| + 1 + j) == Boundary(b, j)
  {
    var s := a + [c] + b;
    if j > 0 { assert s[|a| + j] == b[j - 1]; } else { assert s[|a|] == c; }
    if j < |b| { assert s[|a| + 1 + j] == b[j]; }
  }

  lemma BoundaryBeforeSeparator(a: string, c: char, b: string, i: nat)
    requires !IsWordChar(c) && i <= |a|
    ensures Boundary(a + [c] + b, i) == Boundary(a, i)
  {
    var s := a + [c] + b;
    if i > 0 { assert s[i - 1] == a[i - 1]; }
    if i < |a| { assert s[i] == a[i]; } else { assert s[i] == c; }
  }

  /** A match just after the separator is a match at the start of `b`. */
  lemma MatchAfterSeparator(a: string, c: char, b: string, p: string, j: nat)
    requires !IsWordChar(c) && IsPlainForm(p) && j <= |b|
    ensures MatchAt(a + [c] + b, p, |a| + 1 + j) == MatchAt(b, p, j)
  {
    var s := a + [c] + b;
    BoundaryAfterSeparator(a, c, b, j);
    if j + |p| <= |b| {
      BoundaryAfterSeparator(a, c, b, j + |p|);
      assert s[|a| + 1 + j..|a| + 1 + j + |p|] == b[j..j + |p|];
    }
  }

  /** No match reaches across a non-word character. */
  lemma MatchBeforeSeparator(a: string, c: char, b: string, p: string, i: nat)
    requires !IsWordChar(c) && IsPlainForm(p) && i <= |a|
    ensures MatchAt(a + [c] + b, p, i) == MatchAt(a, p, i)
  {
    var s := a + [c] + b;
    if i + |p| <= |a| {
      BoundaryBeforeSeparator(a, c, b, i);
      BoundaryBeforeSeparator(a, c, b, i + |p|);
      assert s[i..i + |p|] == a[i..i + |p|];
    } else if MatchAt(s, p, i) {
      assert s[|a|] == c;
      MatchedCharIsLetter(s, p, i, |a| - i);
      assert false;
    }
  }

  /** One step of two scans that agree: when position `i` of `s` and position
      `j` of `x` hold the same character and match alike, and the scans agree
      (up to a common `tail`) from the next positions on, they agree from `i`
      and `j`. */
  lemma ScanStep(s: string, i: nat, x: string, j: nat, p: string, t: string, tail: string)
    requires |p| > 0 && i < |s| && j < |x| && s[i] == x[j]
    requires MatchAt(s, p, i) == MatchAt(x, p, j)
    requires MatchAt(s, p, i) ==> SubFrom(s, p, t, i + |p|) == SubFrom(x, p, t, j + |p|) + tail
    requires !MatchAt(s, p, i) ==> SubFrom(s, p, t, i + 1) == SubFrom(x, p, t, j + 1) + tail
    ensures SubFrom(s, p, t, i) == SubFrom(x, p, t, j) + tail
  {
    if MatchAt(s, p, i) {
      assert SubFrom(s, p, t, i) == t + SubFrom(s, p, t, i + |p|);
      assert SubFrom(x, p, t, j) == t + SubFrom(x, p, t, j + |p|);
    } else {
      assert SubFrom(s, p, t, i) == [s[i]] + SubFrom(s, p, t, i + 1);
      assert SubFrom(x, p, t, j) == [x[j]] + SubFrom(x, p, t, j + 1);
    }
  }

  /** Scanning past a non-word character `c` is scanning `b` afresh. */
  lemma {:induction false} SubFromAfterSeparator(a: string, c: char, b: string, p: string, t: string, j: nat)
    requires !IsWordChar(c) && IsPlainForm(p) && j <= |b|
    ensures SubFrom(a + [c] + b, p, t, |a| + 1 + j) == SubFrom(b, p, t, j)
    decreases |b| - j
  {
    var s := a + [c] + b;
    var i := |a| + 1 + j;
    if j < |b| {
      MatchAfterSeparator(a, c, b, p, j);
      if MatchAt(b, p, j) {
        SubFromAfterSeparator(a, c, b, p, t, j + |p|);
      } else {
        SubFromAfterSeparator(a, c, b, p, t, j + 1);
      }
      assert s[i] == b[j];
      ScanStep(s, i, b, j, p, t, []);
      assert SubFrom(b, p, t, j) + [] == SubFrom(b, p, t, j);
    }
  }

  /** At the separator itself, the pass copies it and scans `b` afresh. */
  lemma SubFromAtSeparator(a: string, c: char, b: string, p: string, t: string)
    requires !IsWordChar(c) && IsPlainForm(p)
    ensures SubFrom(a + [c] + b, p, t, |a|) == [c] + SubFrom(b, p, t, 0)
  {
    var s := a + [c] + b;
    MatchBeforeSeparator(a, c, b, p, |a|);
    assert s[|a|] == c;
    SubFromAfterSeparator(a, c, b, p, t, 0);
  }

  /** Before the separator, scanning `a + [c] + b` is scanning `a`, then the
      separator, then `b`. */
  lemma {:induction false} SubFromBeforeSeparator(a: string, c: char, b: string, p: string, t: string, i: nat)
    requires !IsWordChar(c) && IsPlainForm(p) && i <= |a|
    ensures SubFrom(a + [c] + b, p, t, i) == SubFrom(a, p, t, i) + ([c] + SubFrom(b, p, t, 0))
    decreases |a| - i
  {
    var s := a + [c] + b;
    var tail := [c] + SubFrom(b, p, t, 0);
    if i == |a| {
      SubFromAtSeparator(a, c, b, p, t);
      assert SubFrom(a, p, t, i) == [];
    } else {
      MatchBeforeSeparator(a, c, b, p, i);
      if MatchAt(a, p, i) {
        SubFromBeforeSeparator(a, c, b, p, t, i + |p|);
      } else {
        SubFromBeforeSeparator(a, c, b, p, t, i + 1);
      }
      assert s[i] == a[i];
      ScanStep(s, i, a, i, p, t, tail);
    }
  }

  /** The whole table, like each of its rules, works on the two sides of a
      non-word character separately and leaves that character in place. */
  lemma {:induction false} ApplyRulesSplit(a: string, c: char, b: string, rules: seq<Rule>)
    requires !IsWordChar(c) && WellFormed(rules)
    ensures ApplyRules(a + [c] + b, rules) == ApplyRules(a, rules) + [c] + ApplyRules(b, rules)
    decreases |rules|
  {
    if rules != [] {
      var init, last := rules[..|rules| - 1], rules[|rules| - 1];
      ApplyRulesSplit(a, c, b, init);
      var x, y := ApplyRules(a, init), ApplyRules(b, init);
      SubFromBeforeSeparator(x, c, y, last.plain, last.toned, 0);
      assert Substitute(x, last) + ([c] + Substitute(y, last)) == Substitute(x, last) + [c] + Substitute(y, last);
    }
  }

  /** One rule on one whole word: the word is replaced exactly when it equals
      the plain form up to case. */
  lemma SubstituteWord(w: string, r: Rule)
    requires IsWord(w) && IsPlainForm(r.plain)
    ensures Substitute(w, r) == if EqualCI(w, r.plain) then r.toned else w
  {
    var p, t := r.plain, r.toned;
    forall j | 1 <= j < |w| ensures !MatchAt(w, p, j) {
      assert !Boundary(w, j);
    }
    assert Boundary(w, 0) && Boundary(w, |w|);
    if EqualCI(w, p) {
      assert w[0..|p|] == w;
      assert MatchAt(w, p, 0);
      assert SubFrom(w, p, t, |w|) == [];
    } else {
      assert !MatchAt(w, p, 0) by {
        if |p| < |w| {
          assert !Boundary(w, |p|);
        } else if |p| == |w| {
          assert w[0..|p|] == w;
        }
      }
      SubFromUnchanged(w, p, t, 0);
      assert w[0..] == w;
    }
  }

  /** Extending a table by one rule only matters to a word that matched none
      of the earlier rules. */
  lemma FirstRuleExtend(w: string, rules: seq<Rule>, n: nat)
    requires 0 < n <= |rules|
    ensures FirstRule(w, rules[..n]) ==
      match FirstRule(w, rules[..n - 1])
      case Some(k) => Some(k)
      case None => if EqualCI(w, rules[n - 1].plain) then Some(n - 1) else None
  {
    assert forall j :: 0 <= j < n - 1 ==> rules[..n][j] == rules[..n - 1][j];
  }

  /** A whole word run through the first `n` rules of a table without
      chaining becomes the toned form of the first of them it matches. */
  lemma {:induction false} ApplyRulesToWord(w: string, rules: seq<Rule>, n: nat)
    requires IsWord(w) && WellFormed(rules) && NoChaining(rules) && n <= |rules|
    ensures ApplyRules(w, rules[..n]) == ToneOf(w, rules[..n])
    decreases n
  {
    if n > 0 {
      var init, last := rules[..n - 1], rules[n - 1];
      assert rules[..n][..n - 1] == init;
      assert rules[..n][n - 1] == last;
      ApplyRulesToWord(w, rules, n - 1);
      FirstRuleExtend(w, rules, n);
      var before := ApplyRules(w, init);
      match FirstRule(w, init)
      case Some(k) =>
        assert before == rules[k].toned;
        assert !EqualCI(rules[k].toned, last.plain);
        SubstituteWord(before, last);
      case None =>
        assert before == w;
        SubstituteWord(before, last);
    }
  }

  /** Rule `i`'s output is not picked up by any later rule (checked rule by
      rule). */
  lemma NoChainingAt(i: nat)
    requires i < |Rules|
    ensures forall j :: i < j < |Rules| ==> !EqualCI(Rules[i].toned, Rules[j].plain)
  {
    if i < 6 { NoChainingLow(i); } else { NoChainingHigh(i); }
  }

  lemma NoChainingLow(i: nat)
    requires i < 6
    ensures forall j :: i < j < |Rules| ==> !EqualCI(Rules[i].toned, Rules[j].plain)
  {
    if i == 0 {} else if i == 1 {} else if i == 2 {} else if i == 3 {} else if i == 4 {} else {}
  }

  lemma NoChainingHigh(i: nat)
    requires 6 <= i < |Rules|
    ensures forall j :: i < j < |Rules| ==> !EqualCI(Rules[i].toned, Rules[j].plain)
  {
    if i == 6 {} else if i == 7 {} else if i == 8 {} else if i == 9 {} else if i == 10 {} else if i == 11 {} else {}
  }

  /** Rule `i` has a lower-case plain form and a one-word toned form
      (checked rule by rule). */
  lemma RuleShapeAt(i: nat)
    requires i < |Rules|
    ensures IsPlainForm(Rules[i].plain) && IsWord(Rules[i].toned)
    ensures |Rules[i].toned| == |Rules[i].plain|
  {
    if i < 6 { RuleShapeLow(i); } else { RuleShapeHigh(i); }
  }

  lemma RuleShapeLow(i: nat)
    requires i < 6
    ensures IsPlainForm(Rules[i].plain) && IsWord(Rules[i].toned)
    ensures |Rules[i].toned| == |Rules[i].plain|
  {
    if i == 0 {} else if i == 1 {} else if i == 2 {} else if i == 3 {} else if i == 4 {} else {}
  }

  lemma RuleShapeHigh(i: nat)
    requires 6 <= i < |Rules|
    ensures IsPlainForm(Rules[i].plain) && IsWord(Rules[i].toned)
    ensures |Rules[i].toned| == |Rules[i].plain|
  {
    if i == 6 {} else if i == 7 {} else if i == 8 {} else if i == 9 {} else if i == 10 {} else if i == 11 {} else {}
  }

  /** Marking never changes the length of a text (in code points): every
      toned form of the table is precomposed, one character per letter of its
      plain form. */
  lemma RulesKeepLength()
    ensures LengthPreserving(Rules)
  {
    forall i | 0 <= i < |Rules|
      ensures |Rules[i].toned| == |Rules[i].plain|
    {
      RuleShapeAt(i);
    }
  }

  lemma RulesWellFormed()
    ensures WellFormed(Rules) && NoChaining(Rules)
  {
    forall i | 0 <= i < |Rules|
      ensures IsPlainForm(Rules[i].plain) && IsWord(Rules[i].toned)
    {
      RuleShapeAt(i);
    }
    forall i | 0 <= i < |Rules|
      ensures forall j :: i < j < |Rules| ==> !EqualCI(Rules[i].toned, Rules[j].plain)
    {
      NoChainingAt(i);
    }
  }

  /** The table on one whole word: the toned form of the rule whose plain
      form the word equals up to case, or the word unchanged. */
  lemma MarkWord(w: string)
    requires IsWord(w)
    ensures ApplyRules(w, Rules) == ToneOf(w, Rules)
  {
    RulesWellFormed();
    ApplyRulesToWord(w, Rules, |Rules|);
    assert Rules[..|Rules|] == Rules;
  }

  /** A text in which no plain form of the table occurs as a whole word comes
      back unchanged. */
  lemma {:induction false} ApplyRulesNoMatch(s: string, rules: seq<Rule>)
    requires NonEmptyPlains(rules)
    requires forall k, i :: 0 <= k < |rules| && 0 <= i < |s| ==> !MatchAt(s, rules[k].plain, i)
    ensures ApplyRules(s, rules) == s
    decreases |rules|
  {
    if rules != [] {
      var init := rules[..|rules| - 1];
      ApplyRulesNoMatch(s, init);
      SubFromUnchanged(s, rules[|rules| - 1].plain, rules[|rules| - 1].toned, 0);
    }
  }

  // ---------------------------------------------------------------------
  // The table at work on concrete inputs.

  /** A word equal, up to case, to the plain form of rule `k` and to none
      before it becomes that rule's toned form. */
  lemma MarkMatchedWord(w: string, k: nat)
    requires IsWord(w) && k < |Rules| && EqualCI(w, Rules[k].plain)
    requires forall j :: 0 <= j < k ==> !EqualCI(w, Rules[j].plain)
    ensures ApplyRules(w, Rules) == Rules[k].toned
  {
    MarkWord(w);
  }

  /** Case is ignored when matching, and the fixed toned form is written. */
  lemma ExampleUpperCase()
    ensures ApplyRules("OMO", Rules) == "ọmọ"
  {
    assert IsWord("OMO");
    MarkMatchedWord("OMO", 0);
  }

  lemma ExampleCapitalised()
    ensures ApplyRules("Baba", Rules) == "bàbá"
  {
    assert IsWord("Baba");
    MarkMatchedWord("Baba", 1);
  }

  /** The identity rules still lower-case what they match. */
  lemma ExampleIdentityRule()
    ensures ApplyRules("Wa", Rules) == "wa"
  {
    assert IsWord("Wa");
    MarkMatchedWord("Wa", 5);
  }

  /** Only whole words are replaced: a plain form inside a longer word is
      left alone. */
  lemma ExampleInsideWord()
    ensures ApplyRules("tomo", Rules) == "tomo"
  {
    assert IsWord("tomo");
    MarkWord("tomo");
    assert FirstRule("tomo", Rules) == None;
  }

  /** A sentence is marked word by word. */
  lemma ExampleSentence()
    ensures ApplyRules("omo ti wa", Rules) == "ọmọ tí wa"
  {
    RulesWellFormed();
    ExampleTail();
    assert "omo ti wa" == "omo" + [' '] + "ti wa";
    ApplyRulesSplit("omo", ' ', "ti wa", Rules);
    ExampleLowerCase();
    assert "ọmọ" + [' '] + "tí wa" == "ọmọ tí wa";
  }

  lemma ExampleTail()
    ensures ApplyRules("ti wa", Rules) == "tí wa"
  {
    RulesWellFormed();
    assert "ti wa" == "ti" + [' '] + "wa";
    ApplyRulesSplit("ti", ' ', "wa", Rules);
    ExampleIdentityRuleLower();
    ExampleTi();
    assert "tí" + [' '] + "wa" == "tí wa";
  }

  lemma ExampleLowerCase()
    ensures ApplyRules("omo", Rules) == "ọmọ"
  {
    assert IsWord("omo");
    MarkMatchedWord("omo", 0);
  }

  lemma ExampleTi()
    ensures ApplyRules("ti", Rules) == "tí"
  {
    assert IsWord("ti");
    MarkMatchedWord("ti", 7);
  }

  lemma ExampleIdentityRuleLower()
    ensures ApplyRules("wa", Rules) == "wa"
  {
    assert IsWord("wa");
    MarkMatchedWord("wa", 5);
  }
}
