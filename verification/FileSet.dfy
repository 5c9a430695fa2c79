/** File lists from git, and their expansion into commands that fit the argument limit. */
module FileSet {
  import opened Wrappers
  import opened Text
  import opened Shell

  const MAX_ARG_BYTES: nat := 128 * 1024

  const TEMPLATE_VARS := ["{staged_files}", "{push_files}", "{all_files}", "{files}"]

  // ---- The git listing ----------------------------------------------------------------------------------------------

  /** The pieces between separators. */
  function Split<T(==)>(s: seq<T>, separator: T): (r: seq<seq<T>>)
    ensures |r| > 0
  {
    if s == [] then [[]]
    else
      var rest := Split(s[1..], separator);
      if s[0] == separator then [[]] + rest else [[s[0]] + rest[0]] + rest[1..]
  }

  function NonEmpty<T(==)>(pieces: seq<seq<T>>): seq<seq<T>> {
    if pieces == [] then []
    else if pieces[0] == [] then NonEmpty(pieces[1..])
    else [pieces[0]] + NonEmpty(pieces[1..])
  }

  /** `parse_nul_delimited`, over bytes or over characters. */
  function ParseNulDelimited<T(==)>(s: seq<T>, nul: T): seq<seq<T>> {
    NonEmpty(Split(s, nul))
  }

  /** The output of a `-z` listing: every name is followed by a NUL. */
  function Listing<T>(names: seq<seq<T>>, nul: T): seq<T> {
    if names == [] then [] else names[0] + [nul] + Listing(names[1..], nul)
  }

  lemma {:induction false} SplitName<T>(name: seq<T>, nul: T, rest: seq<T>)
    requires nul !in name
    ensures Split(name + [nul] + rest, nul) == [name] + Split(rest, nul)
  {
    var s := name + [nul] + rest;
    if name == [] {
      assert s[1..] == rest;
    } else {
      assert s[1..] == name[1..] + [nul] + rest;
      SplitName(name[1..], nul, rest);
      assert s[0] == name[0] && [name[0]] + name[1..] == name;
      assert ([name[1..]] + Split(rest, nul))[1..] == Split(rest, nul);
    }
  }

  /** Parsing a listing gives back the names, spaces, newlines and leading dashes included. */
  lemma {:induction false} ListingRoundTrip<T>(names: seq<seq<T>>, nul: T)
    requires forall i | 0 <= i < |names| :: names[i] != [] && nul !in names[i]
    ensures ParseNulDelimited(Listing(names, nul), nul) == names
  {
    if names == [] {
      assert NonEmpty<T>([[]]) == [];
    } else {
      SplitName(names[0], nul, Listing(names[1..], nul));
      ListingRoundTrip(names[1..], nul);
      assert ([names[0]] + Split(Listing(names[1..], nul), nul))[1..] == Split(Listing(names[1..], nul), nul);
    }
  }

  // ---- Substitution --------------------------------------------------------------------------------------------------

  predicate HasTemplate(command: string) {
    exists v | v in TEMPLATE_VARS :: Contains(command, v)
  }

  /** The variables from the `k`-th on, replaced one after the other. */
  function SubstituteFrom(k: nat, text: string, expansion: string): string
    requires k <= 4
    decreases 4 - k
  {
    if k == 4 then text else SubstituteFrom(k + 1, ReplaceAll(text, TEMPLATE_VARS[k], expansion), expansion)
  }

  function Substituted(command: string, expansion: string): string {
    SubstituteFrom(0, command, expansion)
  }

  method SubstituteOnce(command: string, expansion: string) returns (out: string)
    ensures out == Substituted(command, expansion)
  {
    out := command;
    for k := 0 to |TEMPLATE_VARS|
      invariant Substituted(command, expansion) == SubstituteFrom(k, out, expansion)
    {
      var v := TEMPLATE_VARS[k];
      if Contains(out, v) {
        out := ReplaceAll(out, v, expansion);
      } else {
        ReplaceAbsent(out, v, expansion);
      }
    }
  }

  // ---- Chunking -------------------------------------------------------------------------------------------------------

  /** `s.len()`: strings are kept in UTF-8. */
  function Bytes(s: string): nat {
    |Utf8(s)|
  }

  /** What a name adds to a command: its quoted form and a joining space. */
  function Cost(name: string): nat {
    Bytes(Escaped(name)) + 1
  }

  function Size(names: seq<string>): nat {
    if names == [] then 0 else Size(names[..|names| - 1]) + Cost(names[|names| - 1])
  }

  function Flatten<T>(groups: seq<seq<T>>): seq<T> {
    if groups == [] then [] else Flatten(groups[..|groups| - 1]) + groups[|groups| - 1]
  }

  predicate Fits(overhead: nat, group: seq<string>) {
    |group| == 1 || overhead + Size(group) <= MAX_ARG_BYTES
  }

  /** The next group's first name would not have fitted into this one. */
  predicate Full(overhead: nat, group: seq<string>, next: seq<string>) {
    next != [] && overhead + Size(group) + Cost(next[0]) > MAX_ARG_BYTES
  }

  /** Consecutive non-empty groups that fit, none of which could have taken the next name as well. */
  predicate IsGreedy(overhead: nat, groups: seq<seq<string>>) {
    && (forall i | 0 <= i < |groups| :: groups[i] != [] && Fits(overhead, groups[i]))
    && (forall i | 0 < i < |groups| :: Full(overhead, groups[i - 1], groups[i]))
  }

  function Commands(command: string, groups: seq<seq<string>>): (r: seq<string>)
    ensures |r| == |groups|
  {
    seq(|groups|, i requires 0 <= i < |groups| => Substituted(command, Expansion(groups[i])))
  }

  /** One command without a template or without files; otherwise one command for each greedy group of the files. */
  ghost predicate ExpandsTo(command: string, files: seq<string>, chunks: seq<string>, groups: seq<seq<string>>) {
    if !HasTemplate(command) then chunks == [command]
    else if files == [] then chunks == [Substituted(command, "")]
    else chunks == Commands(command, groups) && Flatten(groups) == files && IsGreedy(Bytes(command), groups)
  }

  method ExpandTemplate(command: string, files: seq<string>) returns (chunks: seq<string>, ghost groups: seq<seq<string>>)
    ensures ExpandsTo(command, files, chunks, groups)
    ensures chunks != []
  {
    hide HasTemplate, Substituted, Commands, Flatten, IsGreedy;
    groups := [];
    if !HasTemplate(command) {
      return [command], groups;
    }
    if files == [] {
      var only := SubstituteOnce(command, "");
      return [only], groups;
    }
    chunks, groups := ChunkFiles(command, files);
  }

  /** The loop of `expand_template`. */
  method ChunkFiles(command: string, files: seq<string>) returns (chunks: seq<string>, ghost groups: seq<seq<string>>)
    requires files != []
    ensures chunks == Commands(command, groups) && chunks != []
    ensures Flatten(groups) == files && IsGreedy(Bytes(command), groups)
  {
    hide Chunked, Substituted, Commands, Flatten, IsGreedy, Size, Expansion, Escaped, EscapedAll, Bytes, Join;
    chunks, groups := [], [];
    var current: seq<string> := [];
    var currentBytes: nat := 0;
    var fixedOverhead := Bytes(command);
    ghost var names: seq<string> := [];
    ChunkedStart(command);
    for i := 0 to |files|
      invariant Chunked(command, files[..i], chunks, current, currentBytes, groups, names)
    {
      ChunkedFacts(command, files[..i], chunks, current, currentBytes, groups, names);
      var escaped := ShellEscape(files[i]);
      var delta := Bytes(escaped) + 1;
      assert files[..i + 1] == files[..i] + [files[i]];
      if current != [] && fixedOverhead + currentBytes + delta > MAX_ARG_BYTES {
        CloseGroup(command, files[..i], chunks, current, currentBytes, groups, names, files[i]);
        var chunk := SubstituteOnce(command, Join(current, " "));
        chunks := chunks + [chunk];
        groups, names := groups + [names], [];
        current, currentBytes := [], 0;
      } else {
        GrowGroup(command, files[..i], chunks, current, currentBytes, groups, names, files[i]);
      }
      current := current + [escaped];
      currentBytes := currentBytes + delta;
      names := names + [files[i]];
    }
    assert files[..|files|] == files;
    ChunkedFacts(command, files, chunks, current, currentBytes, groups, names);
    if current != [] {
      CommandsSnoc(command, groups, names);
      FlattenSnoc(groups, names);
      var chunk := SubstituteOnce(command, Join(current, " "));
      chunks := chunks + [chunk];
      groups := groups + [names];
    }
  }

  lemma ChunkedStart(command: string)
    ensures Chunked(command, [], [], [], 0, [], [])
  {
  }

  /** After the names `done`: the closed groups and their commands, and the group being filled. */
  ghost predicate Chunked(command: string, done: seq<string>, chunks: seq<string>, current: seq<string>, bytes: nat,
                          groups: seq<seq<string>>, names: seq<string>)
  {
    && chunks == Commands(command, groups)
    && Flatten(groups) + names == done
    && current == EscapedAll(names) && bytes == Size(names)
    && (done != [] ==> names != [])
    && (if names == [] then groups == [] else IsGreedy(Bytes(command), groups + [names]))
  }

  lemma ChunkedFacts(command: string, done: seq<string>, chunks: seq<string>, current: seq<string>, bytes: nat,
                     groups: seq<seq<string>>, names: seq<string>)
    requires Chunked(command, done, chunks, current, bytes, groups, names)
    ensures |current| == |names| && bytes == Size(names) && Join(current, " ") == Expansion(names)
    ensures chunks == Commands(command, groups) && Flatten(groups) + names == done
    ensures done != [] ==> names != [] && IsGreedy(Bytes(command), groups + [names])
  {
  }

  lemma CommandsSnoc(command: string, groups: seq<seq<string>>, names: seq<string>)
    ensures Commands(command, groups + [names]) == Commands(command, groups) + [Substituted(command, Expansion(names))]
  {
  }

  lemma EscapedSnoc(names: seq<string>, next: string)
    ensures EscapedAll(names + [next]) == EscapedAll(names) + [Escaped(next)]
  {
  }

  lemma CloseGroup(command: string, done: seq<string>, chunks: seq<string>, current: seq<string>, bytes: nat,
                   groups: seq<seq<string>>, names: seq<string>, next: string)
    requires Chunked(command, done, chunks, current, bytes, groups, names)
    requires names != [] && Bytes(command) + bytes + Cost(next) > MAX_ARG_BYTES
    ensures Chunked(command, done + [next], chunks + [Substituted(command, Expansion(names))], [] + [Escaped(next)],
                    0 + Cost(next), groups + [names], [] + [next])
  {
    hide Size, Cost, Substituted, Expansion, Escaped, IsGreedy;
    CommandsSnoc(command, groups, names);
    FlattenSnoc(groups, names);
    GreedyClose(Bytes(command), groups, names, next);
    SizeOfNone();
    SizeSnoc([], next);
    EscapedSnoc([], next);
    assert [] + [next] == [next];
  }

  lemma GrowGroup(command: string, done: seq<string>, chunks: seq<string>, current: seq<string>, bytes: nat,
                  groups: seq<seq<string>>, names: seq<string>, next: string)
    requires Chunked(command, done, chunks, current, bytes, groups, names)
    requires names != [] ==> Bytes(command) + bytes + Cost(next) <= MAX_ARG_BYTES
    ensures Chunked(command, done + [next], chunks, current + [Escaped(next)], bytes + Cost(next), groups, names + [next])
  {
    hide Size, Cost, Substituted, Expansion, Escaped, IsGreedy;
    GreedyGrow(Bytes(command), groups, names, next);
    SizeSnoc(names, next);
    EscapedSnoc(names, next);
    assert Flatten(groups) + (names + [next]) == Flatten(groups) + names + [next];
  }

  lemma SizeOfNone()
    ensures Size([]) == 0
  {
  }

  lemma SizeSnoc(names: seq<string>, last: string)
    ensures Size(names + [last]) == Size(names) + Cost(last)
  {
    assert (names + [last])[..|names|] == names;
  }

  lemma FlattenSnoc<T>(groups: seq<seq<T>>, last: seq<T>)
    ensures Flatten(groups + [last]) == Flatten(groups) + last
  {
    assert (groups + [last])[..|groups|] == groups;
  }

  lemma GreedyClose(overhead: nat, groups: seq<seq<string>>, names: seq<string>, next: string)
    requires names != [] && IsGreedy(overhead, groups + [names])
    requires overhead + Size(names) + Cost(next) > MAX_ARG_BYTES
    ensures IsGreedy(overhead, groups + [names] + [[next]])
  {
    hide Size, Cost;
    var longer := groups + [names] + [[next]];
    assert forall i | 0 <= i < |groups| + 1 :: longer[i] == (groups + [names])[i];
    forall i | 0 < i < |longer| ensures Full(overhead, longer[i - 1], longer[i]) {
      if i <= |groups| {
        assert (groups + [names])[i] == longer[i];
      }
    }
  }

  lemma GreedyGrow(overhead: nat, groups: seq<seq<string>>, names: seq<string>, next: string)
    requires if names == [] then groups == [] else IsGreedy(overhead, groups + [names])
    requires names != [] ==> overhead + Size(names) + Cost(next) <= MAX_ARG_BYTES
    ensures IsGreedy(overhead, groups + [names + [next]])
  {
    SizeSnoc(names, next);
    hide Size, Cost;
    var before, after := groups + [names], groups + [names + [next]];
    forall i | 0 <= i < |after| ensures after[i] != [] && Fits(overhead, after[i]) {
      if i < |groups| {
        assert before[i] == after[i];
      }
    }
    forall i | 0 < i < |after| ensures Full(overhead, after[i - 1], after[i]) {
      assert Full(overhead, before[i - 1], before[i]);
      assert before[i - 1] == after[i - 1] && before[i][0] == after[i][0];
    }
  }
}
