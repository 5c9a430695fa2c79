/** What template expansion guarantees: no file is lost or reordered, and chunks stay under the limit. */
module FileSetTheory {
  import opened Wrappers
  import opened Text
  import opened Shell
  import opened FileSet

  // ---- Greedy grouping is determined ----------------------------------------------------------------------------------

  lemma {:induction false} FlattenPrefix<T>(groups: seq<seq<T>>, k: nat)
    requires k <= |groups|
    ensures Flatten(groups[..k]) <= Flatten(groups)
    decreases |groups|
  {
    if k == |groups| {
      assert groups[..k] == groups;
    } else {
      var front := groups[..|groups| - 1];
      assert front[..k] == groups[..k];
      FlattenPrefix(front, k);
    }
  }

  lemma {:induction false} SizePrefix(names: seq<string>, k: nat)
    requires k <= |names|
    ensures Size(names[..k]) <= Size(names)
    decreases |names|
  {
    hide Cost;
    if k == |names| {
      assert names[..k] == names;
    } else {
      var front := names[..|names| - 1];
      assert front[..k] == names[..k];
      SizePrefix(front, k);
    }
  }

  lemma {:induction false} FlattenCons<T>(first: seq<T>, rest: seq<seq<T>>)
    ensures Flatten([first] + rest) == first + Flatten(rest)
    decreases |rest|
  {
    if rest == [] {
      assert [first] + rest == [first];
      assert Flatten([first][..0]) == [];
    } else {
      var front := rest[..|rest| - 1];
      FlattenCons(first, front);
      assert ([first] + rest)[..|rest|] == [first] + front;
    }
  }

  lemma GreedyTail(overhead: nat, groups: seq<seq<string>>)
    requires groups != [] && IsGreedy(overhead, groups)
    ensures IsGreedy(overhead, groups[1..])
  {
    hide Full, Fits;
    var tail := groups[1..];
    forall i | 0 < i < |tail| ensures Full(overhead, tail[i - 1], tail[i]) {
      assert Full(overhead, groups[i + 1 - 1], groups[i + 1]);
    }
  }

  lemma GroupWithNext(group: seq<string>, n: nat)
    requires n < |group|
    ensures Size(group[..n]) + Cost(group[n]) <= Size(group)
  {
    hide Cost, Size;
    SizeSnoc(group[..n], group[n]);
    assert group[..n + 1] == group[..n] + [group[n]];
    SizePrefix(group, n + 1);
  }

  /** The name after the first group did not fit into it. */
  lemma NextDidNotFit(overhead: nat, groups: seq<seq<string>>)
    requires IsGreedy(overhead, groups) && groups != [] && |groups[0]| < |Flatten(groups)|
    ensures overhead + Size(groups[0]) + Cost(Flatten(groups)[|groups[0]|]) > MAX_ARG_BYTES
  {
    hide Size, Cost;
    FlattenCons(groups[0], groups[1..]);
    assert [groups[0]] + groups[1..] == groups;
    assert Flatten<string>([]) == [];
    assert groups[1..] != [];
    FlattenCons(groups[1], groups[2..]);
    assert [groups[1]] + groups[2..] == groups[1..];
    assert Full(overhead, groups[1 - 1], groups[1]);
  }

  /** A shorter first group could have taken another name. */
  lemma FirstGroupNotShorter(overhead: nat, a: seq<seq<string>>, b: seq<seq<string>>)
    requires IsGreedy(overhead, a) && IsGreedy(overhead, b) && a != [] && b != []
    requires Flatten(a) == Flatten(b)
    ensures |a[0]| >= |b[0]|
  {
    hide Size, Cost;
    var n, whole := |a[0]|, Flatten(a);
    FlattenCons(a[0], a[1..]);
    FlattenCons(b[0], b[1..]);
    assert [a[0]] + a[1..] == a && [b[0]] + b[1..] == b;
    assert a[0] == whole[..n] && b[0] == whole[..|b[0]|];
    if n < |b[0]| {
      assert b[0][..n] == a[0] && b[0][n] == whole[n];
      NextDidNotFit(overhead, a);
      GroupWithNext(b[0], n);
      assert false;
    }
  }

  /** Maximal greedy groups are unique: nothing but the file list and the command's length decides them. */
  lemma {:induction false} GreedyIsUnique(overhead: nat, a: seq<seq<string>>, b: seq<seq<string>>)
    requires IsGreedy(overhead, a) && IsGreedy(overhead, b) && Flatten(a) == Flatten(b)
    ensures a == b
    decreases |a|
  {
    hide Full, Fits;
    if a == [] || b == [] {
      EmptyFlatten(overhead, if a == [] then b else a);
    } else {
      FirstGroupNotShorter(overhead, a, b);
      FirstGroupNotShorter(overhead, b, a);
      FlattenCons(a[0], a[1..]);
      FlattenCons(b[0], b[1..]);
      assert [a[0]] + a[1..] == a && [b[0]] + b[1..] == b;
      assert a[0] == Flatten(a)[..|a[0]|] == b[0];
      assert Flatten(a[1..]) == Flatten(a)[|a[0]|..] == Flatten(b[1..]);
      GreedyTail(overhead, a);
      GreedyTail(overhead, b);
      GreedyIsUnique(overhead, a[1..], b[1..]);
    }
  }

  lemma EmptyFlatten(overhead: nat, groups: seq<seq<string>>)
    requires IsGreedy(overhead, groups)
    ensures groups != [] ==> Flatten(groups) != []
  {
    if groups != [] {
      assert groups[|groups| - 1] != [];
    }
  }

  // ---- Substituting a single variable --------------------------------------------------------------------------------

  /** `command` is `pre + v + post` for the `k`-th variable, which stands only there, and mentions no other. */
  ghost predicate Single(k: nat, pre: string, post: string) {
    && k < 4
    && (forall i: nat | i < |pre| :: !OccursAt(pre + TEMPLATE_VARS[k] + post, TEMPLATE_VARS[k], i))
    && !Contains(post, TEMPLATE_VARS[k])
    && (forall j: nat | j < k :: !Contains(pre + TEMPLATE_VARS[k] + post, TEMPLATE_VARS[j]))
  }

  lemma {:induction false} SkipsAbsent(k: nat, j: nat, text: string, expansion: string)
    requires j <= k <= 4
    requires forall i: nat | j <= i < k :: !Contains(text, TEMPLATE_VARS[i])
    ensures SubstituteFrom(j, text, expansion) == SubstituteFrom(k, text, expansion)
    decreases k - j
  {
    hide Contains, ReplaceAll;
    if j < k {
      ReplaceAbsent(text, TEMPLATE_VARS[j], expansion);
      SkipsAbsent(k, j + 1, text, expansion);
    }
  }

  /** The variable is replaced where it stands; what follows is only the later variables' turn. */
  lemma SingleVariable(k: nat, pre: string, post: string, expansion: string)
    requires Single(k, pre, post)
    ensures Substituted(pre + TEMPLATE_VARS[k] + post, expansion) == SubstituteFrom(k + 1, pre + expansion + post, expansion)
  {
    hide Contains, OccursAt, ReplaceAll;
    SkipsAbsent(k, 0, pre + TEMPLATE_VARS[k] + post, expansion);
    ReplaceSingle(pre, TEMPLATE_VARS[k], post, expansion);
  }

  /** A command with one `{files}` gets exactly the expansion in its place, whatever the file names are. */
  lemma FilesIsExact(pre: string, post: string, expansion: string)
    requires Single(3, pre, post)
    ensures Substituted(pre + "{files}" + post, expansion) == pre + expansion + post
  {
    SingleVariable(3, pre, post, expansion);
  }

  // ---- Substituting the other variables -------------------------------------------------------------------------------

  predicate NoBraces(s: string) {
    '{' !in s && '}' !in s
  }

  /** The shape of the variables that the arguments below rest on. */
  lemma VariableShape(k: nat)
    requires k < 4
    ensures var v := TEMPLATE_VARS[k];
            && |v| > 1 && v[0] == '{' && v[|v| - 1] == '}' && ' ' !in v && '\'' !in v && '\\' !in v
            && v[1] == ['s', 'p', 'a', 'f'][k]
            && |v| == [14, 12, 11, 7][k]
  {
    var v := TEMPLATE_VARS[k];
    assert v == "{staged_files}" || v == "{push_files}" || v == "{all_files}" || v == "{files}";
  }

  lemma OccursFirst(text: string, w: string, i: nat, j: nat)
    requires OccursAt(text, w, i) && j < |w|
    ensures text[i + j] == w[j]
  {
    assert text[i..i + |w|][j] == text[i + j];
  }

  lemma BareVariableIsSingle(k: nat, pre: string, post: string)
    requires k < 4 && NoBraces(pre) && NoBraces(post)
    ensures Single(k, pre, post)
  {
    hide OccursAt;
    var v := TEMPLATE_VARS[k];
    var text := pre + v + post;
    VariableShape(k);
    AbsentCharacter(post, v, 0);
    forall i: nat | i < |pre| ensures !OccursAt(text, v, i) {
      CharacterOf(pre, v, post, i);
      if OccursAt(text, v, i) {
        OccursFirst(text, v, i, 0);
        assert false;
      }
    }
    forall j: nat | j < k ensures !Contains(text, TEMPLATE_VARS[j]) {
      VariableShape(j);
      forall i: nat | i <= |text| ensures !OccursAt(text, TEMPLATE_VARS[j], i) {
        OtherVariable(k, j, pre, post, i);
      }
    }
  }

  lemma OtherVariable(k: nat, j: nat, pre: string, post: string, i: nat)
    requires j < k < 4 && NoBraces(pre) && NoBraces(post)
    ensures !OccursAt(pre + TEMPLATE_VARS[k] + post, TEMPLATE_VARS[j], i)
  {
    hide OccursAt;
    var v, w := TEMPLATE_VARS[k], TEMPLATE_VARS[j];
    var text := pre + v + post;
    VariableShape(k);
    VariableShape(j);
    if OccursAt(text, w, i) {
      WithinText(text, w, i);
      OccursFirst(text, w, i, 0);
      OccursFirst(text, w, i, 1);
      OnlyBrace(k, pre, post, i);
      assert false;
    }
  }

  lemma WithinText(text: string, w: string, i: nat)
    requires OccursAt(text, w, i)
    ensures i + |w| <= |text|
  {
  }

  lemma CharacterOf(a: string, b: string, c: string, i: nat)
    requires i < |a + b + c|
    ensures (a + b + c)[i] == if i < |a| then a[i] else if i < |a| + |b| then b[i - |a|] else c[i - |a| - |b|]
  {
  }

  /** Between brace-free texts, an opening brace can only be the variable's own. */
  lemma OnlyBrace(k: nat, pre: string, post: string, i: nat)
    requires k < 4 && NoBraces(pre) && NoBraces(post)
    requires i < |pre + TEMPLATE_VARS[k] + post| && (pre + TEMPLATE_VARS[k] + post)[i] == '{'
    ensures i + 1 < |pre + TEMPLATE_VARS[k] + post| && (pre + TEMPLATE_VARS[k] + post)[i + 1] == TEMPLATE_VARS[k][1]
  {
    var v := TEMPLATE_VARS[k];
    var text := pre + v + post;
    VariableShape(k);
    assert v == "{staged_files}" || v == "{push_files}" || v == "{all_files}" || v == "{files}";
    CharacterOf(pre, v, post, i);
    CharacterOf(pre, v, post, |pre| + 1);
    assert |pre| <= i < |pre| + |v|;
  }

  /** A text is found across a separator it does not contain only on one side of it. */
  lemma ContainsAcross(a: string, c: char, b: string, w: string)
    requires c !in w && w != ""
    ensures Contains(a + [c] + b, w) <==> Contains(a, w) || Contains(b, w)
  {
    var text := a + [c] + b;
    if Contains(a, w) {
      var i: nat :| i <= |a| && OccursAt(a, w, i);
      assert text[i..i + |w|] == a[i..i + |w|];
      assert OccursAt(text, w, i);
    }
    if Contains(b, w) {
      var i: nat :| i <= |b| && OccursAt(b, w, i);
      assert text[i + |a| + 1..i + |a| + 1 + |w|] == b[i..i + |w|];
      assert OccursAt(text, w, i + |a| + 1);
    }
    if Contains(text, w) {
      var i: nat :| i <= |text| && OccursAt(text, w, i);
      if i + |w| <= |a| {
        assert a[i..i + |w|] == text[i..i + |w|];
        assert OccursAt(a, w, i);
      } else if i > |a| {
        assert b[i - |a| - 1..i - |a| - 1 + |w|] == text[i..i + |w|];
        assert OccursAt(b, w, i - |a| - 1);
      } else {
        OccursFirst(text, w, i, |a| - i);
        assert false;
      }
    }
  }

  lemma {:induction false} QuoteFreePrefix(s: string, p: string)
    requires p <= QuoteBody(s) && '\'' !in p
    ensures p <= s
    decreases |s|
  {
    if p != "" {
      var head := if s[0] == '\'' then "'\\''" else [s[0]];
      assert QuoteBody(s)[0] == head[0] == p[0];
      assert p[0] in p;
      assert QuoteBody(s)[1..] == QuoteBody(s[1..]);
      assert p[1..] <= QuoteBody(s)[1..];
      QuoteFreePrefix(s[1..], p[1..]);
      assert p == [p[0]] + p[1..] && s == [s[0]] + s[1..];
    }
  }

  lemma {:induction false} QuoteBodyPlain(s: string)
    requires '\'' !in s
    ensures QuoteBody(s) == s
  {
    if s != "" {
      QuoteBodyPlain(s[1..]);
    }
  }

  lemma {:induction false} QuoteBodyContains(s: string, w: string)
    requires w != "" && '\'' !in w && '\\' !in w
    ensures Contains(QuoteBody(s), w) ==> Contains(s, w)
    decreases |s|
  {
    if Contains(QuoteBody(s), w) {
      var i: nat :| i <= |QuoteBody(s)| && OccursAt(QuoteBody(s), w, i);
      var head := if s[0] == '\'' then "'\\''" else [s[0]];
      assert QuoteBody(s) == head + QuoteBody(s[1..]);
      if i == 0 {
        QuoteFreePrefix(s, w);
        assert OccursAt(s, w, 0);
      } else {
        InHead(head, QuoteBody(s[1..]), w, i);
        assert OccursAt(QuoteBody(s[1..]), w, i - |head|);
        QuoteBodyContains(s[1..], w);
        var j: nat :| j <= |s[1..]| && OccursAt(s[1..], w, j);
        OccursInTail(s, w, j);
      }
    }
  }

  lemma InHead(head: string, rest: string, w: string, i: nat)
    requires w != "" && '\'' !in w && '\\' !in w
    requires 0 < i && OccursAt(head + rest, w, i)
    requires |head| == 1 || head == "'\\''"
    ensures i >= |head| && OccursAt(rest, w, i - |head|)
  {
    OccursFirst(head + rest, w, i, 0);
    CharacterOf(head, rest, "", i);
    assert head + rest + "" == head + rest;
    assert w[0] in w;
    assert i >= |head|;
    assert rest[i - |head|..i - |head| + |w|] == (head + rest)[i..i + |w|];
  }

  lemma ContainedInQuoted(s: string, w: string)
    requires Contains(s, w) && '\'' !in w
    ensures Contains(QuoteBody(s), w)
  {
    var i: nat :| i <= |s| && OccursAt(s, w, i);
    var a, b := s[..i], s[i + |w|..];
    assert s == a + w + b;
    QuoteBodyConcat(a + w, b);
    QuoteBodyConcat(a, w);
    QuoteBodyPlain(w);
    var q := QuoteBody(a) + w + QuoteBody(b);
    assert q[|QuoteBody(a)|..|QuoteBody(a)| + |w|] == w;
    assert OccursAt(q, w, |QuoteBody(a)|);
  }

  /** Quoting neither hides nor creates a mention of a variable. */
  lemma EscapedMentions(s: string, w: string)
    requires w != "" && '\'' !in w && '\\' !in w
    ensures Contains(Escaped(s), w) <==> Contains(s, w)
  {
    hide Contains, QuoteBody;
    if !(AllSafe(s) && s != "") {
      var body := QuoteBody(s);
      assert Escaped(s) == "" + "'" + (body + "'" + "");
      ContainsAcross("", '\'', body + "'" + "", w);
      ContainsAcross(body, '\'', "", w);
      NothingInEmpty(w);
      QuoteBodyContains(s, w);
      if Contains(s, w) {
        ContainedInQuoted(s, w);
      }
    }
  }

  lemma NothingInEmpty(w: string)
    requires w != ""
    ensures !Contains("", w)
  {
  }

  predicate Mentioned(names: seq<string>, w: string) {
    exists i | 0 <= i < |names| :: Contains(names[i], w)
  }

  lemma {:induction false} ExpansionMentions(names: seq<string>, w: string)
    requires w != "" && ' ' !in w && '\'' !in w && '\\' !in w
    ensures Contains(Expansion(names), w) <==> Mentioned(names, w)
    decreases |names|
  {
    hide Contains, Escaped, Expansion;
    if names == [] {
      NothingInEmpty(w);
      EmptyExpansion();
    } else {
      EscapedMentions(names[0], w);
      assert names == [names[0]] + names[1..];
      if |names| == 1 {
        SingleExpansion(names[0]);
        assert names == [names[0]];
        assert Contains(names[0], w) <==> Mentioned(names, w);
      } else {
        ExpansionCons(names);
        ContainsAcross(Escaped(names[0]), ' ', Expansion(names[1..]), w);
        ExpansionMentions(names[1..], w);
        assert forall i | 0 < i < |names| :: names[i] == names[1..][i - 1];
      }
    }
  }

  lemma EmptyExpansion()
    ensures Expansion([]) == ""
  {
  }

  lemma {:induction false} ExpansionLonger(names: seq<string>, i: nat)
    requires i < |names| && '{' in names[i]
    ensures |Expansion(names)| >= |names[i]| + 2
    decreases |names|
  {
    if i == 0 {
      QuoteBodyLonger(names[0]);
      assert !AllSafe(names[0]) by {
        var x :| 0 <= x < |names[0]| && names[0][x] == '{';
        assert !IsSafe(names[0][x]);
      }
    } else {
      ExpansionLonger(names[1..], i - 1);
    }
    if |names| > 1 {
      ExpansionCons(names);
    } else {
      SingleExpansion(names[0]);
      assert names == [names[0]];
    }
  }

  lemma {:induction false} ReplaceGrows(s: string, v: string, e: string)
    requires v != "" && |e| >= |v|
    ensures |ReplaceAll(s, v, e)| >= |s|
    ensures |e| > |v| && Contains(s, v) ==> |ReplaceAll(s, v, e)| > |s|
    decreases |s|
  {
    if |s| >= |v| {
      if s[..|v|] == v {
        ReplaceGrows(s[|v|..], v, e);
      } else {
        ReplaceGrows(s[1..], v, e);
        if Contains(s, v) {
          var i: nat :| i <= |s| && OccursAt(s, v, i);
          OccursInTail(s, v, i - 1);
          assert OccursAt(s[1..], v, i - 1);
        }
      }
    }
  }

  /** Once a variable occurs and the expansion is longer than it, the text ends up longer than it was. */
  lemma {:induction false} SubstituteGrows(j: nat, text: string, e: string, strict: bool)
    requires j <= 4 && forall m: nat | j <= m < 4 :: |e| >= |TEMPLATE_VARS[m]|
    requires strict ==> j < 4 && |e| > |TEMPLATE_VARS[j]| && Contains(text, TEMPLATE_VARS[j])
    ensures |SubstituteFrom(j, text, e)| >= |text| + if strict then 1 else 0
    decreases 4 - j
  {
    hide Contains, ReplaceAll;
    if j < 4 {
      VariableShape(j);
      ReplaceGrows(text, TEMPLATE_VARS[j], e);
      SubstituteGrows(j + 1, ReplaceAll(text, TEMPLATE_VARS[j], e), e, false);
    }
  }

  lemma MentionOutside(pre: string, e: string, post: string, j: nat)
    requires j < 4 && NoBraces(pre) && NoBraces(post)
    ensures Contains(pre + e + post, TEMPLATE_VARS[j]) <==> Contains(e, TEMPLATE_VARS[j])
  {
    var w, text := TEMPLATE_VARS[j], pre + e + post;
    VariableShape(j);
    if Contains(e, w) {
      var i: nat :| i <= |e| && OccursAt(e, w, i);
      assert text[i + |pre|..i + |pre| + |w|] == e[i..i + |w|];
      assert OccursAt(text, w, i + |pre|);
    }
    if Contains(text, w) {
      var i: nat :| i <= |text| && OccursAt(text, w, i);
      OccursFirst(text, w, i, 0);
      OccursFirst(text, w, i, |w| - 1);
      Inside(pre, e, post, i, '{');
      Inside(pre, e, post, i + |w| - 1, '}');
      assert e[i - |pre|..i - |pre| + |w|] == text[i..i + |w|];
      assert OccursAt(e, w, i - |pre|);
    }
  }

  lemma Inside(pre: string, e: string, post: string, i: nat, brace: char)
    requires brace !in pre && brace !in post && i < |pre + e + post| && (pre + e + post)[i] == brace
    ensures |pre| <= i < |pre| + |e|
  {
    CharacterOf(pre, e, post, i);
  }

  /**
   * With other variables than `{files}` the expansion is scanned again for the variables that follow in the list. Where
   * a variable is the command's only use of braces, the command comes out as intended exactly when no file name
   * mentions a later variable.
   */
  lemma VariableExactIff(k: nat, pre: string, post: string, names: seq<string>)
    requires k < 4 && NoBraces(pre) && NoBraces(post)
    ensures Substituted(pre + TEMPLATE_VARS[k] + post, Expansion(names)) == pre + Expansion(names) + post <==>
            forall j: nat | k < j < 4 :: !Mentioned(names, TEMPLATE_VARS[j])
  {
    hide Contains, Expansion, SubstituteFrom, Mentioned;
    var e := Expansion(names);
    var text := pre + e + post;
    BareVariableIsSingle(k, pre, post);
    SingleVariable(k, pre, post, e);
    forall j: nat | j < 4 ensures Contains(text, TEMPLATE_VARS[j]) <==> Mentioned(names, TEMPLATE_VARS[j]) {
      VariableShape(j);
      MentionOutside(pre, e, post, j);
      ExpansionMentions(names, TEMPLATE_VARS[j]);
    }
    if forall j: nat | k < j < 4 :: !Contains(text, TEMPLATE_VARS[j]) {
      SkipsAbsent(4, k + 1, text, e);
      NoneLeft(text, e);
    } else {
      var j := FirstMention(k + 1, text);
      LongerThanMention(names, j);
      SkipsAbsent(j, k + 1, text, e);
      SubstituteGrows(j, text, e, true);
    }
  }

  lemma NoneLeft(text: string, e: string)
    ensures SubstituteFrom(4, text, e) == text
  {
  }

  lemma {:induction false} FirstMention(from: nat, text: string) returns (j: nat)
    requires exists i: nat :: from <= i < 4 && Contains(text, TEMPLATE_VARS[i])
    ensures from <= j < 4 && Contains(text, TEMPLATE_VARS[j])
    ensures forall i: nat | from <= i < j :: !Contains(text, TEMPLATE_VARS[i])
    decreases 4 - from
  {
    hide Contains;
    if Contains(text, TEMPLATE_VARS[from]) {
      j := from;
    } else {
      j := FirstMention(from + 1, text);
    }
  }

  lemma LongerThanMention(names: seq<string>, j: nat)
    requires j < 4 && Mentioned(names, TEMPLATE_VARS[j])
    ensures |Expansion(names)| > |TEMPLATE_VARS[j]|
    ensures forall m: nat | j <= m < 4 :: |Expansion(names)| >= |TEMPLATE_VARS[m]|
  {
    hide Expansion;
    var w := TEMPLATE_VARS[j];
    var i :| 0 <= i < |names| && Contains(names[i], w);
    var x: nat :| x <= |names[i]| && OccursAt(names[i], w, x);
    VariableShape(j);
    OccursFirst(names[i], w, x, 0);
    ExpansionLonger(names, i);
    forall m: nat | j <= m < 4 ensures |TEMPLATE_VARS[m]| <= |w| {
      VariableShape(m);
    }
  }

  // ---- Several mentions of one variable ---------------------------------------------------------------------------------

  /** Between brace-free parts the only opening braces are those of the variable. */
  lemma {:induction false} JoinedBraces(k: nat, parts: seq<string>, i: nat)
    requires k < 4 && forall p | p in parts :: NoBraces(p)
    requires i < |Join(parts, TEMPLATE_VARS[k])| && Join(parts, TEMPLATE_VARS[k])[i] == '{'
    ensures i + 1 < |Join(parts, TEMPLATE_VARS[k])| && Join(parts, TEMPLATE_VARS[k])[i + 1] == TEMPLATE_VARS[k][1]
    decreases |parts|
  {
    var v := TEMPLATE_VARS[k];
    VariableShape(k);
    if parts != [] {
      assert parts[0] in parts;
    }
    if |parts| > 1 {
      var head := parts[0] + v;
      assert parts[0] in parts;
      if i < |head| {
        BracesOf(k, parts[0], i);
      } else {
        JoinedBraces(k, parts[1..], i - |head|);
      }
    }
  }

  lemma BracesOf(k: nat, pre: string, i: nat)
    requires k < 4 && NoBraces(pre) && i < |pre + TEMPLATE_VARS[k]| && (pre + TEMPLATE_VARS[k])[i] == '{'
    ensures i + 1 < |pre + TEMPLATE_VARS[k]| && (pre + TEMPLATE_VARS[k])[i + 1] == TEMPLATE_VARS[k][1]
  {
    assert pre + TEMPLATE_VARS[k] + "" == pre + TEMPLATE_VARS[k];
    OnlyBrace(k, pre, "", i);
  }

  lemma EarlierAbsent(k: nat, parts: seq<string>, j: nat)
    requires j < k < 4 && forall p | p in parts :: NoBraces(p)
    ensures !Contains(Join(parts, TEMPLATE_VARS[k]), TEMPLATE_VARS[j])
  {
    hide OccursAt;
    var text, w := Join(parts, TEMPLATE_VARS[k]), TEMPLATE_VARS[j];
    VariableShape(k);
    VariableShape(j);
    forall i: nat | i <= |text| ensures !OccursAt(text, w, i) {
      if OccursAt(text, w, i) {
        WithinText(text, w, i);
        OccursFirst(text, w, i, 0);
        OccursFirst(text, w, i, 1);
        JoinedBraces(k, parts, i);
        assert false;
      }
    }
  }

  lemma {:induction false} JoinBraceFree(parts: seq<string>, e: string)
    requires NoBraces(e) && forall p | p in parts :: NoBraces(p)
    ensures NoBraces(Join(parts, e))
  {
    if parts != [] {
      assert parts[0] in parts;
    }
    if |parts| > 1 {
      JoinBraceFree(parts[1..], e);
    }
  }

  /**
   * A variable mentioned any number of times is replaced at each mention: `{files}` whatever the expansion is, the others if
   * the expansion is free of braces.
   */
  lemma EveryMentionIsReplaced(k: nat, parts: seq<string>, expansion: string)
    requires k < 4 && (forall p | p in parts :: NoBraces(p)) && (k == 3 || NoBraces(expansion))
    ensures Substituted(Join(parts, ["{staged_files}", "{push_files}", "{all_files}", "{files}"][k]), expansion) ==
            Join(parts, expansion)
  {
    hide Contains, Join, SubstituteFrom;
    var v := TEMPLATE_VARS[k];
    assert v == ["{staged_files}", "{push_files}", "{all_files}", "{files}"][k];
    var text, done := Join(parts, v), Join(parts, expansion);
    VariableShape(k);
    forall j: nat | j < k ensures !Contains(text, TEMPLATE_VARS[j]) {
      EarlierAbsent(k, parts, j);
    }
    SkipsAbsent(k, 0, text, expansion);
    ReplaceJoined(parts, v, expansion);
    SubstituteStep(k, text, expansion);
    if k < 3 {
      JoinBraceFree(parts, expansion);
      forall j: nat | k < j < 4 ensures !Contains(done, TEMPLATE_VARS[j]) {
        VariableShape(j);
        AbsentCharacter(done, TEMPLATE_VARS[j], 0);
      }
      SkipsAbsent(4, k + 1, done, expansion);
    }
    NoneLeft(done, expansion);
  }

  lemma SubstituteStep(k: nat, text: string, e: string)
    requires k < 4
    ensures SubstituteFrom(k, text, e) == SubstituteFrom(k + 1, ReplaceAll(text, TEMPLATE_VARS[k], e), e)
  {
  }

  /** A staged file named `{files}` is enough: the command lists more than the staged file. */
  lemma StagedFileNamedFiles()
    ensures Substituted("{staged_files}", Expansion(["{files}"])) != Expansion(["{files}"])
  {
    VariableExactIff(0, "", "", ["{files}"]);
    var w := TEMPLATE_VARS[3];
    assert OccursAt("{files}", w, 0);
    assert Contains(["{files}"][0], w);
    assert Mentioned(["{files}"], w);
    assert "" + "{staged_files}" + "" == "{staged_files}";
    assert "" + Expansion(["{files}"]) + "" == Expansion(["{files}"]);
  }

  // ---- Sizes ------------------------------------------------------------------------------------------------------------

  lemma {:induction false} BytesConcat(a: string, b: string)
    ensures Bytes(a + b) == Bytes(a) + Bytes(b)
  {
    if a == "" {
      assert a + b == b;
    } else {
      assert (a + b)[1..] == a[1..] + b && (a + b)[0] == a[0];
      BytesConcat(a[1..], b);
    }
  }

  lemma {:induction false} SizeCons(names: seq<string>)
    requires names != []
    ensures Size(names) == Cost(names[0]) + Size(names[1..])
    decreases |names|
  {
    hide Cost;
    if |names| > 1 {
      var front := names[..|names| - 1];
      SizeCons(front);
      assert names[1..][..|names| - 2] == front[1..];
    }
  }

  /** An expansion is as long as its cost, less the one space too many. */
  lemma {:induction false} ExpansionBytes(names: seq<string>)
    requires names != []
    ensures Bytes(Expansion(names)) + 1 == Size(names)
    decreases |names|
  {
    hide Expansion, Escaped, Bytes;
    SizeCons(names);
    if |names| == 1 {
      SingleExpansion(names[0]);
      assert names == [names[0]];
      SizeOfNone();
    } else {
      ExpansionCons(names);
      ExpansionBytes(names[1..]);
      BytesConcat(Escaped(names[0]) + " ", Expansion(names[1..]));
      BytesConcat(Escaped(names[0]), " ");
      SpaceBytes();
    }
  }

  lemma SpaceBytes()
    ensures Bytes(" ") == 1 && Bytes("{files}") == 7
  {
    assert Bytes("{files}"[7..]) == 0;
    assert Bytes("{files}"[6..]) == 1;
    assert Bytes("{files}"[5..]) == 2;
    assert Bytes("{files}"[4..]) == 3;
    assert Bytes("{files}"[3..]) == 4;
    assert Bytes("{files}"[2..]) == 5;
    assert Bytes("{files}"[1..]) == 6;
  }

  /** A chunk with two or more files stays under the limit: in all, eight bytes under it. */
  lemma ChunkFitsLimit(pre: string, post: string, group: seq<string>)
    requires Single(3, pre, post) && |group| > 1
    requires Fits(Bytes(pre + "{files}" + post), group)
    ensures Bytes(Substituted(pre + "{files}" + post, Expansion(group))) + 8 <= 131072
  {
    hide Expansion, Bytes, Single, Substituted, Size;
    var e := Expansion(group);
    FilesIsExact(pre, post, e);
    ExpansionBytes(group);
    BytesConcat(pre + e, post);
    BytesConcat(pre, e);
    BytesConcat(pre + "{files}", post);
    BytesConcat(pre, "{files}");
    SpaceBytes();
  }

  /** A chunk is closed only when the next name would have taken it over the limit: 128 KiB, one joining space per name. */
  lemma NextNameDidNotFit(command: string, groups: seq<seq<string>>, i: nat)
    requires IsGreedy(Bytes(command), groups) && i + 1 < |groups|
    ensures groups[i + 1] != [] && Bytes(command) + Bytes(Expansion(groups[i] + [groups[i + 1][0]])) + 1 > 131072
  {
    hide Expansion, Bytes;
    assert Full(Bytes(command), groups[i], groups[i + 1]);
    SizeSnoc(groups[i], groups[i + 1][0]);
    ExpansionBytes(groups[i] + [groups[i + 1][0]]);
  }

  // ---- From the git listing to the words of the commands --------------------------------------------------------------------

  /** The command around the variable: free of braces, or with `{files}` as its only variable. */
  ghost predicate Plain(k: nat, pre: string, post: string) {
    (NoBraces(pre) && NoBraces(post)) || (k == 3 && Single(3, pre, post))
  }

  lemma VariableIsTemplate(k: nat, pre: string, post: string)
    requires k < 4
    ensures HasTemplate(pre + TEMPLATE_VARS[k] + post)
  {
    var v := TEMPLATE_VARS[k];
    var text := pre + v + post;
    assert text[|pre|..|pre| + |v|] == v;
    assert OccursAt(text, v, |pre|);
    assert v in TEMPLATE_VARS && Contains(text, v);
  }

  /** A command without braces is run once, as it is, whatever the files are. */
  lemma PlainCommandStays(command: string, files: seq<string>, chunks: seq<string>, groups: seq<seq<string>>)
    requires NoBraces(command) && ExpandsTo(command, files, chunks, groups)
    ensures chunks == [command]
  {
    forall v | v in TEMPLATE_VARS ensures !Contains(command, v) {
      var k :| 0 <= k < 4 && v == TEMPLATE_VARS[k];
      VariableShape(k);
      AbsentCharacter(command, v, 0);
    }
  }

  /**
   * Any of the four variables is replaced: without files by nothing, otherwise in one command for each greedy group of the
   * files by the group's quoted names, if no name mentions a later variable.
   */
  lemma VariableIsExpanded(k: nat, pre: string, post: string, files: seq<string>, chunks: seq<string>, groups: seq<seq<string>>)
    requires k < 4 && Plain(k, pre, post)
    requires ExpandsTo(pre + ["{staged_files}", "{push_files}", "{all_files}", "{files}"][k] + post, files, chunks, groups)
    requires forall j: nat | k < j < 4 :: !Mentioned(files, TEMPLATE_VARS[j])
    ensures files == [] ==> chunks == [pre + post]
    ensures files != [] ==>
              && Flatten(groups) == files && IsGreedy(Bytes(pre + TEMPLATE_VARS[k] + post), groups)
              && |chunks| == |groups| && forall i | 0 <= i < |groups| :: chunks[i] == pre + Expansion(groups[i]) + post
  {
    hide Expansion, Substituted, Plain, Bytes, HasTemplate, Mentioned, Commands, IsGreedy;
    assert TEMPLATE_VARS[k] == ["{staged_files}", "{push_files}", "{all_files}", "{files}"][k];
    VariableIsTemplate(k, pre, post);
    if files == [] {
      WithoutFiles(k, pre, post);
    } else {
      GroupsAreExact(k, pre, post, groups);
    }
  }

  lemma WithoutFiles(k: nat, pre: string, post: string)
    requires k < 4 && Plain(k, pre, post)
    ensures Substituted(pre + TEMPLATE_VARS[k] + post, "") == pre + post
  {
    hide Expansion, Substituted, Plain;
    EmptyExpansion();
    PlainIsExact(k, pre, post, []);
    assert pre + "" + post == pre + post;
  }

  lemma GroupsAreExact(k: nat, pre: string, post: string, groups: seq<seq<string>>)
    requires k < 4 && Plain(k, pre, post) && forall j: nat | k < j < 4 :: !Mentioned(Flatten(groups), TEMPLATE_VARS[j])
    ensures forall i | 0 <= i < |groups| ::
              Commands(pre + TEMPLATE_VARS[k] + post, groups)[i] == pre + Expansion(groups[i]) + post
  {
    hide Expansion, Substituted, Plain, Mentioned, Flatten;
    forall i | 0 <= i < |groups| ensures Commands(pre + TEMPLATE_VARS[k] + post, groups)[i] == pre + Expansion(groups[i]) + post {
      forall j: nat | k < j < 4 ensures !Mentioned(groups[i], TEMPLATE_VARS[j]) {
        if Mentioned(groups[i], TEMPLATE_VARS[j]) {
          GroupMentions(groups, i, TEMPLATE_VARS[j]);
        }
      }
      PlainIsExact(k, pre, post, groups[i]);
    }
  }

  lemma PlainIsExact(k: nat, pre: string, post: string, names: seq<string>)
    requires k < 4 && Plain(k, pre, post) && forall j: nat | k < j < 4 :: !Mentioned(names, TEMPLATE_VARS[j])
    ensures Substituted(pre + TEMPLATE_VARS[k] + post, Expansion(names)) == pre + Expansion(names) + post
  {
    hide Expansion, Substituted, Single, NoBraces, Mentioned;
    if k == 3 && Single(3, pre, post) {
      FilesIsExact(pre, post, Expansion(names));
    } else {
      VariableExactIff(k, pre, post, names);
    }
  }

  /** A name of a group is one of the files. */
  lemma {:induction false} GroupMentions(groups: seq<seq<string>>, i: nat, w: string)
    requires i < |groups| && Mentioned(groups[i], w)
    ensures Mentioned(Flatten(groups), w)
    decreases |groups|
  {
    hide Contains;
    var last := |groups| - 1;
    var front := Flatten(groups[..last]);
    if i == last {
      var x :| 0 <= x < |groups[i]| && Contains(groups[i][x], w);
      assert Flatten(groups)[|front| + x] == groups[i][x];
    } else {
      GroupMentions(groups[..last], i, w);
      var x :| 0 <= x < |front| && Contains(front[x], w);
      assert Flatten(groups)[x] == front[x];
    }
  }

  /**
   * For a command with one variable between blanks, and names that mention no later variable: the names git lists reach the
   * shell as whole words, each in exactly one of the commands and in listing order.
   */
  lemma EveryFileReachesACommand(k: nat, pre: string, post: string, names: seq<string>, chunks: seq<string>,
                                 groups: seq<seq<string>>)
    requires k < 4 && Plain(k, pre, post) && names != []
    requires pre == "" || IsBlank(pre[|pre| - 1])
    requires post == "" || IsBlank(post[0])
    requires Scan(pre, Between).Some? && Scan(pre, Between).value.1.Between? && Words(post).Some?
    requires forall i | 0 <= i < |names| :: names[i] != "" && '\0' !in names[i]
    requires forall j: nat | k < j < 4 :: !Mentioned(names, TEMPLATE_VARS[j])
    requires ExpandsTo(pre + ["{staged_files}", "{push_files}", "{all_files}", "{files}"][k] + post,
                       ParseNulDelimited(Listing(names, '\0'), '\0'), chunks, groups)
    ensures Flatten(groups) == names && |chunks| == |groups|
    ensures forall i | 0 <= i < |groups| ::
              Words(chunks[i]) == Some(Scan(pre, Between).value.0 + groups[i] + Words(post).value)
  {
    hide Scan, Words, Expansion, Plain, IsBlank, Bytes, ParseNulDelimited, ExpandsTo, Mentioned;
    ListingRoundTrip(names, '\0');
    VariableIsExpanded(k, pre, post, names, chunks, groups);
    forall i | 0 <= i < |groups|
      ensures Words(chunks[i]) == Some(Scan(pre, Between).value.0 + groups[i] + Words(post).value)
    {
      NamesAreWords(pre, groups[i], post);
    }
  }
}
