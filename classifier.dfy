/**
 * The rule engine of the segmentation model: `rule_matches` and
 * `assign_segment`.  A rule is the configuration's dictionary: it may carry
 * an `any_of` list of sub-rules and any of nine bound keys over the
 * R, F and M scores.
 */
module Classifier {
  import opened Wrappers
  import Text

  /** The three ordinal scores of one customer. */
  datatype Scores = Scores(r: int, f: int, m: int)

  /** The bound keys `R_min`, `R_max`, `R`, `F_min`, …, `M`; `None` is an absent key. */
  datatype Bounds = Bounds(
    rMin: Option<int>, rMax: Option<int>, rExact: Option<int>,
    fMin: Option<int>, fMax: Option<int>, fExact: Option<int>,
    mMin: Option<int>, mMax: Option<int>, mExact: Option<int>)

  /**
   * A rule dictionary: `hasAnyOf` says whether the `any_of` key is present and
   * `anyOf` is its list (empty when absent); `bounds` are the bound keys beside it.
   */
  datatype Rule = Rule(hasAnyOf: bool, anyOf: seq<Rule>, bounds: Bounds)

  const NoBounds := Bounds(None, None, None, None, None, None, None, None, None)

  predicate AtLeast(bound: Option<int>, score: int) { bound.Some? ==> bound.value <= score }
  predicate AtMost(bound: Option<int>, score: int) { bound.Some? ==> score <= bound.value }
  predicate Exactly(bound: Option<int>, score: int) { bound.Some? ==> score == bound.value }

  /** Every present bound holds of its score. */
  predicate WithinBounds(b: Bounds, s: Scores)
  {
    && AtLeast(b.rMin, s.r) && AtMost(b.rMax, s.r) && Exactly(b.rExact, s.r)
    && AtLeast(b.fMin, s.f) && AtMost(b.fMax, s.f) && Exactly(b.fExact, s.f)
    && AtLeast(b.mMin, s.m) && AtMost(b.mMax, s.m) && Exactly(b.mExact, s.m)
  }

  /**
   * The bound tests of `rule_matches`, in the source's order, each returning
   * false early: the rule holds exactly when every present bound holds.
   */
  function BoundsHold(b: Bounds, s: Scores): (ok: bool)
    ensures ok <==> WithinBounds(b, s)
  {
    if b.rMin.Some? && s.r < b.rMin.value then false
    else if b.rMax.Some? && s.r > b.rMax.value then false
    else if b.rExact.Some? && s.r != b.rExact.value then false
    else if b.fMin.Some? && s.f < b.fMin.value then false
    else if b.fMax.Some? && s.f > b.fMax.value then false
    else if b.fExact.Some? && s.f != b.fExact.value then false
    else if b.mMin.Some? && s.m < b.mMin.value then false
    else if b.mMax.Some? && s.m > b.mMax.value then false
    else if b.mExact.Some? && s.m != b.mExact.value then false
    else true
  }

  /** `rule_matches`: an `any_of` rule is the disjunction of its sub-rules, any other rule its bounds. */
  function Matches(rule: Rule, s: Scores): (ok: bool)
    ensures !rule.hasAnyOf ==> (ok <==> WithinBounds(rule.bounds, s))
    decreases rule, 1
  {
    if rule.hasAnyOf then AnyMatches(rule.anyOf, s)
    else BoundsHold(rule.bounds, s)
  }

  /** Python's `any(...)` over the sub-rules, left to right. */
  function AnyMatches(subs: seq<Rule>, s: Scores): (ok: bool)
    ensures ok <==> exists i :: 0 <= i < |subs| && Matches(subs[i], s)
    decreases subs, 0
  {
    if subs == [] then false
    else Matches(subs[0], s) || AnyMatches(subs[1..], s)
  }

  /** An `any_of` rule ignores every bound key beside it. */
  lemma AnyOfIgnoresBounds(subs: seq<Rule>, b1: Bounds, b2: Bounds, s: Scores)
    ensures Matches(Rule(true, subs, b1), s) == Matches(Rule(true, subs, b2), s)
    ensures Matches(Rule(true, subs, b1), s) <==> exists i :: 0 <= i < |subs| && Matches(subs[i], s)
  {
  }

  /** An empty `any_of` list matches nothing. */
  lemma EmptyAnyOfNeverMatches(b: Bounds, s: Scores)
    ensures !Matches(Rule(true, [], b), s)
  {
  }

  /** A rule with no bound keys and no `any_of` matches every score triple. */
  lemma NoBoundsMatchAll(s: Scores)
    ensures Matches(Rule(false, [], NoBounds), s)
  {
  }

  /** `b2` keeps every bound of `b` and may add more. */
  predicate Extends(b2: Bounds, b: Bounds)
  {
    && (b.rMin.Some? ==> b2.rMin == b.rMin) && (b.rMax.Some? ==> b2.rMax == b.rMax)
    && (b.rExact.Some? ==> b2.rExact == b.rExact)
    && (b.fMin.Some? ==> b2.fMin == b.fMin) && (b.fMax.Some? ==> b2.fMax == b.fMax)
    && (b.fExact.Some? ==> b2.fExact == b.fExact)
    && (b.mMin.Some? ==> b2.mMin == b.mMin) && (b.mMax.Some? ==> b2.mMax == b.mMax)
    && (b.mExact.Some? ==> b2.mExact == b.mExact)
  }

  /**
   * `narrow` is `wide` with bounds added at its leaves and, in `any_of`
   * lists, trailing alternatives dropped.
   */
  ghost predicate Narrower(narrow: Rule, wide: Rule)
    decreases wide
  {
    if wide.hasAnyOf then
      && narrow.hasAnyOf
      && |narrow.anyOf| <= |wide.anyOf|
      && forall i :: 0 <= i < |narrow.anyOf| ==> Narrower(narrow.anyOf[i], wide.anyOf[i])
    else
      !narrow.hasAnyOf && Extends(narrow.bounds, wide.bounds)
  }

  /** Adding bounds, at any depth, can only shrink the set of matching score triples. */
  lemma {:induction false} NarrowingShrinksMatches(narrow: Rule, wide: Rule, s: Scores)
    requires Narrower(narrow, wide)
    ensures Matches(narrow, s) ==> Matches(wide, s)
    decreases wide
  {
    if wide.hasAnyOf && Matches(narrow, s) {
      var i :| 0 <= i < |narrow.anyOf| && Matches(narrow.anyOf[i], s);
      NarrowingShrinksMatches(narrow.anyOf[i], wide.anyOf[i], s);
    }
  }

  const PremiumLabel := "Others - Premium"
  const NotPremiumLabel := "Others - Not premium"

  /**
   * The label of a customer no rule matches.  `subscription` is `None` when the
   * row has no such field, which `row.get('subscription', False)` reads as false.
   */
  function Fallback(subscription: Option<bool>): (fallback: string)
    ensures fallback == PremiumLabel || fallback == NotPremiumLabel
    ensures fallback == PremiumLabel <==> subscription == Some(true)
  {
    if subscription == Some(true) then PremiumLabel else NotPremiumLabel
  }

  /** `key.replace('_', ' ').title()`. */
  function Label(name: string): (shown: string)
    ensures |shown| == |name|
    ensures forall i :: 0 <= i < |shown| ==> shown[i] != '_'
    ensures forall i :: 0 <= i < |shown| ==> (shown[i] == ' ' <==> name[i] == '_' || name[i] == ' ')
  {
    var spaced := Text.ReplaceChar(name, '_', ' ');
    Text.TitleKeepsNonLetters(spaced, '_');
    Text.TitleKeepsNonLetters(spaced, ' ');
    Text.Title(spaced)
  }

  /** `assign_segment`: the label of the first matching rule, else the fallback. */
  function AssignSegment(rules: seq<(string, Rule)>, s: Scores, subscription: Option<bool>): (segment: string)
    ensures || (exists k :: FirstMatchAt(rules, s, k) && segment == Label(rules[k].0))
            || (NoneMatch(rules, s) && segment == Fallback(subscription))
  {
    if rules == [] then Fallback(subscription)
    else if Matches(rules[0].1, s) then Label(rules[0].0)
    else
      var rest := AssignSegment(rules[1..], s, subscription);
      FirstMatchShifts(rules, s);
      rest
  }

  /** Past a first rule that does not match, positions in the remaining rules shift by one. */
  lemma FirstMatchShifts(rules: seq<(string, Rule)>, s: Scores)
    requires rules != [] && !Matches(rules[0].1, s)
    ensures forall k :: FirstMatchAt(rules[1..], s, k) ==> FirstMatchAt(rules, s, k + 1)
    ensures NoneMatch(rules[1..], s) ==> NoneMatch(rules, s)
  {
    forall k | FirstMatchAt(rules[1..], s, k) ensures FirstMatchAt(rules, s, k + 1) {
      forall j | 0 <= j < k + 1 ensures !Matches(rules[j].1, s) {
        if j > 0 {
          assert rules[j] == rules[1..][j - 1];
        }
      }
    }
    if NoneMatch(rules[1..], s) {
      forall j | 0 <= j < |rules| ensures !Matches(rules[j].1, s) {
        if j > 0 {
          assert rules[j] == rules[1..][j - 1];
        }
      }
    }
  }

  /** Rule `k` matches and no rule declared before it does. */
  predicate FirstMatchAt(rules: seq<(string, Rule)>, s: Scores, k: int)
  {
    && 0 <= k < |rules| && Matches(rules[k].1, s)
    && forall j :: 0 <= j < k ==> !Matches(rules[j].1, s)
  }

  predicate NoneMatch(rules: seq<(string, Rule)>, s: Scores)
  {
    forall j :: 0 <= j < |rules| ==> !Matches(rules[j].1, s)
  }

  /** The first matching rule, in declared order, names the segment. */
  lemma {:induction false} FirstMatchWins(rules: seq<(string, Rule)>, s: Scores, subscription: Option<bool>, k: int)
    requires FirstMatchAt(rules, s, k)
    ensures AssignSegment(rules, s, subscription) == Label(rules[k].0)
  {
    if k > 0 {
      assert !Matches(rules[0].1, s);
      assert FirstMatchAt(rules[1..], s, k - 1);
      FirstMatchWins(rules[1..], s, subscription, k - 1);
    }
  }

  /** When no rule matches, the subscription flag alone picks the label. */
  lemma {:induction false} NoMatchFallsBack(rules: seq<(string, Rule)>, s: Scores, subscription: Option<bool>)
    requires NoneMatch(rules, s)
    ensures AssignSegment(rules, s, subscription) == Fallback(subscription)
    ensures AssignSegment(rules, s, subscription) == PremiumLabel <==> subscription == Some(true)
  {
    if rules != [] {
      assert !Matches(rules[0].1, s);
      NoMatchFallsBack(rules[1..], s, subscription);
    }
  }

  /** Once some rule matches, rules declared after the list cannot change the label. */
  lemma {:induction false} LaterRulesIrrelevant(rules: seq<(string, Rule)>, later: seq<(string, Rule)>,
                                                s: Scores, subscription: Option<bool>)
    requires !NoneMatch(rules, s)
    ensures AssignSegment(rules + later, s, subscription) == AssignSegment(rules, s, subscription)
  {
    assert rules != [];
    if !Matches(rules[0].1, s) {
      assert (rules + later)[1..] == rules[1..] + later;
      LaterRulesIrrelevant(rules[1..], later, s, subscription);
    }
  }

  /**
   * Provided no rule's label spells a fallback label, a fallback label is
   * returned exactly when no rule matches.
   */
  lemma {:induction false} FallbackOnlyWithoutMatch(rules: seq<(string, Rule)>, s: Scores, subscription: Option<bool>)
    requires forall j :: 0 <= j < |rules| ==> Label(rules[j].0) != PremiumLabel && Label(rules[j].0) != NotPremiumLabel
    ensures var segment := AssignSegment(rules, s, subscription);
            segment == PremiumLabel || segment == NotPremiumLabel <==> NoneMatch(rules, s)
  {
    if rules != [] && !Matches(rules[0].1, s) {
      FallbackOnlyWithoutMatch(rules[1..], s, subscription);
    }
  }

  /** Without that proviso a matching rule can produce a fallback label. */
  lemma FallbackLabelCanBeSpelled(name: string)
    requires name == "others_-_premium"
    ensures Label(name) == PremiumLabel
  {
    SpacedName(name);
    TitledName(Text.ReplaceChar(name, '_', ' '));
  }

  lemma SpacedName(name: string)
    requires name == "others_-_premium"
    ensures Text.ReplaceChar(name, '_', ' ') == "others - premium"
  {
  }

  lemma TitledName(spaced: string)
    requires spaced == "others - premium"
    ensures Text.Title(spaced) == PremiumLabel
  {
    forall i | 0 <= i < |spaced| ensures Text.Title(spaced)[i] == PremiumLabel[i] {
      Text.TitleAt(spaced, i);
    }
  }

  /** An `any_of` rule and three score triples: `{any_of: [{R_min: 4}, {M: 5}]}`. */
  lemma AnyOfExample()
    ensures var rule := Rule(true, [Rule(false, [], NoBounds.(rMin := Some(4))),
                                     Rule(false, [], NoBounds.(mExact := Some(5)))], NoBounds);
            && Matches(rule, Scores(5, 1, 1))
            && Matches(rule, Scores(1, 1, 5))
            && !Matches(rule, Scores(3, 1, 3))
  {
  }
}
