/**
 * The keyword tagger of testModel2.py: free text in, a comma-joined list of
 * tags out. Each tag is triggered by a case-sensitive substring test on a
 * small list of words, and tags come out in a fixed order.
 */
module Keywords {
  import opened Text

  /** One tagging rule: the tag it emits and the words any of which trigger it. */
  datatype Rule = Rule(tag: string, triggers: seq<string>)

  /** The rules of parseKeywords, in the order their tags are emitted. */
  const Rules: seq<Rule> := [
    Rule("injured", ["lying"]),
    Rule("Fire", ["fire", "flame", "smoke"]),
    Rule("Collision", ["collision", "accident"]),
    Rule("Damage", ["damage", "destroyed"]),
    Rule("injury", ["injured", "injury"])
  ]

  /** Every trigger word of the rules. */
  const TriggerWords: seq<string> :=
    ["lying", "fire", "flame", "smoke", "collision", "accident", "damage", "destroyed", "injured", "injury"]

  /** The separator of `", ".join(keywords)`. */
  const Separator: string := ", "

  /** Some word of `words` occurs in `text`. */
  predicate AnyContained(text: string, words: seq<string>)
  {
    |words| > 0 && (Contains(text, words[0]) || AnyContained(text, words[1..]))
  }

  /** The tags of the rules that `text` triggers, in rule order. */
  function Fired(rules: seq<Rule>, text: string): (r: seq<string>)
  {
    if rules == [] then []
    else (if AnyContained(text, rules[0].triggers) then [rules[0].tag] else []) + Fired(rules[1..], text)
  }

  /** Every tag the rules can emit, in rule order. */
  function Vocabulary(rules: seq<Rule>): (r: seq<string>)
  {
    if rules == [] then [] else [rules[0].tag] + Vocabulary(rules[1..])
  }

  /** The tag list parseKeywords builds for `text`. */
  function Tags(text: string): (r: seq<string>)
  {
    Fired(Rules, text)
  }

  /** Python's `sep.join(parts)`. */
  function Join(parts: seq<string>, sep: string): (r: string)
    ensures parts == [] ==> r == ""
    ensures parts != [] ==> |parts[0]| <= |r| && r[..|parts[0]|] == parts[0]
    ensures |parts| > 1 ==> |parts[0]| + |sep| <= |r| && r[|parts[0]|..|parts[0]| + |sep|] == sep
  {
    if |parts| == 0 then ""
    else if |parts| == 1 then parts[0]
    else parts[0] + sep + Join(parts[1..], sep)
  }

  /** The first comma of `s`, or `|s|` if there is none. */
  function CommaIndex(s: string): (k: nat)
    ensures k <= |s|
    ensures k < |s| ==> s[k] == ','
    ensures forall i :: 0 <= i < k ==> s[i] != ','
  {
    if s == [] || s[0] == ',' then 0 else 1 + CommaIndex(s[1..])
  }

  /** Splits a string at each ", ", the inverse of joining comma-free tags. */
  function Split(s: string): (r: seq<string>)
    decreases |s|
  {
    if s == [] then []
    else
      var k := CommaIndex(s);
      if k == |s| then [s]
      else if k + 2 <= |s| then [s[..k]] + Split(s[k + 2..])
      else [s[..k]]
  }

  /** parseKeywords: one conditional append per rule, then the join. */
  method ParseKeywords(text: string) returns (r: string)
    ensures r == Join(Tags(text), Separator)
  {
    AnyContainedLiteral(text, "lying", "", "");
    AnyContainedLiteral(text, "fire", "flame", "smoke");
    AnyContainedLiteral(text, "collision", "accident", "");
    AnyContainedLiteral(text, "damage", "destroyed", "");
    AnyContainedLiteral(text, "injured", "injury", "");
    var keywords: seq<string> := [];
    FiredAppend([], Rules[0], text);
    if Contains(text, "lying") {
      keywords := keywords + ["injured"];
    }
    assert keywords == Fired(Rules[..1], text);
    FiredAppend(Rules[..1], Rules[1], text);
    if Contains(text, "fire") || Contains(text, "flame") || Contains(text, "smoke") {
      keywords := keywords + ["Fire"];
    }
    assert Rules[..2] == Rules[..1] + [Rules[1]];
    assert keywords == Fired(Rules[..2], text);
    FiredAppend(Rules[..2], Rules[2], text);
    if Contains(text, "collision") || Contains(text, "accident") {
      keywords := keywords + ["Collision"];
    }
    assert Rules[..3] == Rules[..2] + [Rules[2]];
    assert keywords == Fired(Rules[..3], text);
    FiredAppend(Rules[..3], Rules[3], text);
    if Contains(text, "damage") || Contains(text, "destroyed") {
      keywords := keywords + ["Damage"];
    }
    assert Rules[..4] == Rules[..3] + [Rules[3]];
    assert keywords == Fired(Rules[..4], text);
    FiredAppend(Rules[..4], Rules[4], text);
    if Contains(text, "injured") || Contains(text, "injury") {
      keywords := keywords + ["injury"];
    }
    assert Rules == Rules[..4] + [Rules[4]];
    assert keywords == Fired(Rules, text);
    r := Join(keywords, Separator);
  }

  /** Adding a rule at the end of the table can only add its own tag at the end. */
  lemma {:induction false} FiredAppend(rules: seq<Rule>, rule: Rule, text: string)
    ensures Fired(rules + [rule], text) ==
      Fired(rules, text) + (if AnyContained(text, rule.triggers) then [rule.tag] else [])
  {
    if rules != [] {
      assert (rules + [rule])[1..] == rules[1..] + [rule];
      FiredAppend(rules[1..], rule, text);
    } else {
      assert [rule][1..] == [];
    }
  }

  /** Unfolds the trigger test for a literal list of one to three words. */
  lemma AnyContainedLiteral(text: string, a: string, b: string, c: string)
    ensures AnyContained(text, [a]) <==> Contains(text, a)
    ensures AnyContained(text, [a, b]) <==> Contains(text, a) || Contains(text, b)
    ensures AnyContained(text, [a, b, c]) <==> Contains(text, a) || Contains(text, b) || Contains(text, c)
  {
    assert [a][1..] == [] && [a, b][1..] == [b] && [b][1..] == [];
    assert [a, b, c][1..] == [b, c] && [b, c][1..] == [c] && [c][1..] == [];
    assert AnyContained(text, [c]) <==> Contains(text, c);
    assert AnyContained(text, [b, c]) <==> Contains(text, b) || AnyContained(text, [c]);
    assert AnyContained(text, [a, b, c]) <==> Contains(text, a) || AnyContained(text, [b, c]);
  }

  // ---- membership of each tag ----

  /** A tag is emitted iff some rule carrying it is triggered. */
  lemma {:induction false} FiredMember(rules: seq<Rule>, text: string, t: string)
    ensures t in Fired(rules, text) <==>
      exists i :: 0 <= i < |rules| && rules[i].tag == t && AnyContained(text, rules[i].triggers)
  {
    if rules != [] {
      FiredMember(rules[1..], text, t);
      if t in Fired(rules[1..], text) {
        var i :| 0 <= i < |rules[1..]| && rules[1..][i].tag == t && AnyContained(text, rules[1..][i].triggers);
        assert rules[i + 1] == rules[1..][i];
      }
      if exists i :: 0 <= i < |rules| && rules[i].tag == t && AnyContained(text, rules[i].triggers) {
        var i :| 0 <= i < |rules| && rules[i].tag == t && AnyContained(text, rules[i].triggers);
        if i > 0 {
          assert rules[1..][i - 1] == rules[i];
        }
      }
    }
  }

  /** Some trigger word of the list occurs in the text. */
  lemma {:induction false} AnyContainedWitness(text: string, words: seq<string>)
    requires AnyContained(text, words)
    ensures exists w :: w in words && Contains(text, w)
  {
    if !Contains(text, words[0]) {
      AnyContainedWitness(text, words[1..]);
      var w :| w in words[1..] && Contains(text, w);
      assert w in words;
    }
  }

  /** "injured" is emitted iff the text contains "lying". */
  lemma InjuredIff(text: string)
    ensures "injured" in Tags(text) <==> Contains(text, "lying")
  {
    FiredMember(Rules, text, "injured");
    AnyContainedLiteral(text, "lying", "", "");
    assert Rules[0].tag == "injured";
  }

  /** "Fire" is emitted iff the text contains "fire", "flame" or "smoke", and at most once. */
  lemma FireIff(text: string)
    ensures "Fire" in Tags(text) <==> Contains(text, "fire") || Contains(text, "flame") || Contains(text, "smoke")
    ensures multiset(Tags(text))["Fire"] <= 1
  {
    FiredMember(Rules, text, "Fire");
    AnyContainedLiteral(text, "fire", "flame", "smoke");
    assert Rules[1].tag == "Fire";
    TagsOrderedAndDistinct(text);
    DistinctCountsOnce(Tags(text), "Fire");
  }

  /** "Collision" is emitted iff the text contains "collision" or "accident". */
  lemma CollisionIff(text: string)
    ensures "Collision" in Tags(text) <==> Contains(text, "collision") || Contains(text, "accident")
  {
    FiredMember(Rules, text, "Collision");
    AnyContainedLiteral(text, "collision", "accident", "");
    assert Rules[2].tag == "Collision";
  }

  /** "Damage" is emitted iff the text contains "damage" or "destroyed". */
  lemma DamageIff(text: string)
    ensures "Damage" in Tags(text) <==> Contains(text, "damage") || Contains(text, "destroyed")
  {
    FiredMember(Rules, text, "Damage");
    AnyContainedLiteral(text, "damage", "destroyed", "");
    assert Rules[3].tag == "Damage";
  }

  /** "injury" is emitted iff the text contains "injured" or "injury". */
  lemma InjuryIff(text: string)
    ensures "injury" in Tags(text) <==> Contains(text, "injured") || Contains(text, "injury")
  {
    FiredMember(Rules, text, "injury");
    AnyContainedLiteral(text, "injured", "injury", "");
    assert Rules[4].tag == "injury";
  }

  /** Text holding both "lying" and "injured" gets both the "injured" and the "injury" tag. */
  lemma LyingAndInjuredGivesBoth(text: string)
    requires Contains(text, "lying") && Contains(text, "injured")
    ensures "injured" in Tags(text) && "injury" in Tags(text)
  {
    InjuredIff(text);
    InjuryIff(text);
  }

  /** The five tags of the table, in order. */
  lemma VocabularyOfRules()
    ensures Vocabulary(Rules) == ["injured", "Fire", "Collision", "Damage", "injury"]
  {
    var r1 := Rules[1..];
    var r2 := r1[1..];
    var r3 := r2[1..];
    var r4 := r3[1..];
    assert r4[1..] == [];
    assert Vocabulary(r4) == ["injury"];
    assert Vocabulary(r3) == ["Damage", "injury"];
    assert Vocabulary(r2) == ["Collision", "Damage", "injury"];
    assert Vocabulary(r1) == ["Fire", "Collision", "Damage", "injury"];
  }

  /** Nothing but the five tags is ever emitted; in particular every tag is non-empty and comma-free. */
  lemma OnlyKnownTags(text: string, t: string)
    requires t in Tags(text)
    ensures t in ["injured", "Fire", "Collision", "Damage", "injury"]
    ensures t != "" && ',' !in t
  {
    FiredMember(Rules, text, t);
  }

  /** The tag list is empty iff no trigger word of any rule occurs in the text. */
  lemma NoTagIffNoTrigger(text: string)
    ensures Tags(text) == [] <==> forall w :: w in TriggerWords ==> !Contains(text, w)
  {
    if Tags(text) != [] {
      var t := Tags(text)[0];
      FiredMember(Rules, text, t);
      var i :| 0 <= i < |Rules| && Rules[i].tag == t && AnyContained(text, Rules[i].triggers);
      AnyContainedWitness(text, Rules[i].triggers);
      var w :| w in Rules[i].triggers && Contains(text, w);
      assert w in TriggerWords;
    } else {
      InjuredIff(text);
      FireIff(text);
      CollisionIff(text);
      DamageIff(text);
      InjuryIff(text);
    }
  }

  // ---- order and uniqueness ----

  /** The emitted tags are the vocabulary with the untriggered tags dropped. */
  lemma {:induction false} FiredIsSubsequence(rules: seq<Rule>, text: string)
    ensures IsSubsequence(Fired(rules, text), Vocabulary(rules))
  {
    if rules != [] {
      FiredIsSubsequence(rules[1..], text);
      var rest := Fired(rules[1..], text);
      if AnyContained(text, rules[0].triggers) {
        assert Fired(rules, text) == [rules[0].tag] + rest;
        assert ([rules[0].tag] + rest)[1..] == rest;
      } else {
        assert Fired(rules, text) == rest;
      }
    }
  }

  /** Tags come out in the fixed order injured, Fire, Collision, Damage, injury, each at most once. */
  lemma TagsOrderedAndDistinct(text: string)
    ensures IsSubsequence(Tags(text), ["injured", "Fire", "Collision", "Damage", "injury"])
    ensures Distinct(Tags(text))
  {
    VocabularyOfRules();
    FiredIsSubsequence(Rules, text);
    SubsequenceOfDistinct(Tags(text), Vocabulary(Rules));
  }

  // ---- the joined string ----

  /** Joining tags that are non-empty and comma-free can be undone by splitting. */
  lemma {:induction false} SplitJoin(parts: seq<string>)
    requires forall t :: t in parts ==> t != "" && ',' !in t
    ensures Split(Join(parts, Separator)) == parts
  {
    if |parts| == 1 {
      var s := parts[0];
      assert s in parts;
      forall i | 0 <= i < |s| ensures s[i] != ',' {
        assert s[i] in s;
      }
      assert CommaIndex(s) == |s|;
      assert Join(parts, Separator) == s;
    } else if |parts| > 1 {
      var t, rest := parts[0], parts[1..];
      var s := Join(parts, Separator);
      var j := Join(rest, Separator);
      assert s == t + ", " + j;
      var k := CommaIndex(s);
      assert s[|t|] == ',';
      forall i | 0 <= i < |t| ensures s[i] != ',' {
        assert s[i] == t[i] && t[i] in t;
      }
      assert k == |t|;
      assert s[..k] == t;
      assert s[k + 2..] == j;
      forall u | u in rest ensures u in parts {
        var i :| 0 <= i < |rest| && rest[i] == u;
        assert parts[i + 1] == u;
      }
      SplitJoin(rest);
    }
  }

  /** The joined string names exactly the emitted tags, in order. */
  lemma ParseKeywordsSplits(text: string)
    ensures Split(Join(Tags(text), Separator)) == Tags(text)
  {
    forall t | t in Tags(text) ensures t != "" && ',' !in t {
      OnlyKnownTags(text, t);
    }
    SplitJoin(Tags(text));
  }

  /** The result is "" iff no trigger word occurs in the text. */
  lemma EmptyIffNoTrigger(text: string)
    ensures Join(Tags(text), Separator) == "" <==> forall w :: w in TriggerWords ==> !Contains(text, w)
  {
    NoTagIffNoTrigger(text);
    var ts := Tags(text);
    if ts != [] {
      OnlyKnownTags(text, ts[0]);
      assert |Join(ts, Separator)| >= |ts[0]| > 0;
    }
  }

  /** Matching is case-sensitive: "FIRE" alone triggers nothing, so the result is "". */
  lemma UpperCaseFireTriggersNothing()
    ensures Tags("FIRE") == []
    ensures Join(Tags("FIRE"), Separator) == ""
  {
    var s := "FIRE";
    forall w | w in TriggerWords ensures !Contains(s, w) {
      if w == "fire" {
        assert !OccursAt(s, "fire", 0) by {
          assert s[0] != "fire"[0];
        }
      } else {
        TooLongNotContained(s, w);
      }
    }
    NoTagIffNoTrigger(s);
  }
}
