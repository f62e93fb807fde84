/**
 * ObjectShadow::InfoInspect: the greedy 100-column word wrap
 * `column100` and the section, plural and chain-label rules of the
 * `inspect` summary.
 */
module InfoInspect {
  import opened RubyCore
  import opened ObjectModel
  import opened MethodIntrospection

  // ---------------------------------------------------------------------
  // String#split(" "): awk-style splitting on runs of whitespace
  // ---------------------------------------------------------------------

  /** The characters Ruby's awk-style split treats as separators. */
  predicate IsSpace(c: char) {
    c == ' ' || c == '\t' || c == '\n' || c == '\U{B}' || c == '\U{C}' || c == '\r'
  }

  /** A non-empty run of non-separator characters. */
  predicate IsWord(w: string) {
    w != [] && forall i :: 0 <= i < |w| ==> !IsSpace(w[i])
  }

  /** `s` without its leading separators. */
  function SkipSpaces(s: string): (r: string)
    ensures |r| <= |s| && r == s[|s| - |r|..]
    ensures r == [] || !IsSpace(r[0])
  {
    if s == [] || !IsSpace(s[0]) then s else SkipSpaces(s[1..])
  }

  /** The length of the run of non-separators `s` starts with. */
  function WordEnd(s: string): (k: nat)
    ensures k <= |s|
    ensures forall i :: 0 <= i < k ==> !IsSpace(s[i])
    ensures k < |s| ==> IsSpace(s[k])
    ensures s != [] && !IsSpace(s[0]) ==> k >= 1
  {
    if s == [] || IsSpace(s[0]) then 0 else 1 + WordEnd(s[1..])
  }

  /** The run of non-separators is exactly `k` long when a separator (or the end) follows `k` of them. */
  lemma {:induction false} WordEndIs(s: string, k: nat)
    requires k <= |s|
    requires forall i :: 0 <= i < k ==> !IsSpace(s[i])
    requires k < |s| ==> IsSpace(s[k])
    ensures WordEnd(s) == k
  {
    if k > 0 {
      assert forall i :: 0 <= i < k - 1 ==> s[1..][i] == s[i + 1];
      WordEndIs(s[1..], k - 1);
    }
  }

  /** `s.split(" ")`: the maximal runs of non-separators, in order. */
  function Words(s: string): (ws: seq<string>)
    ensures forall w :: w in ws ==> IsWord(w)
    decreases |s|
  {
    var t := SkipSpaces(s);
    if t == [] then []
    else
      var k := WordEnd(t);
      LeadingWord(t);
      [t[..k]] + Words(t[k..])
  }

  /** A string that starts with a non-separator starts with a word. */
  lemma LeadingWord(t: string)
    requires t != [] && !IsSpace(t[0])
    ensures WordEnd(t) >= 1 && IsWord(t[..WordEnd(t)])
  {
    var k := WordEnd(t);
    forall i | 0 <= i < k ensures !IsSpace(t[..k][i]) {
      assert t[..k][i] == t[i];
    }
  }

  /** Every word followed by one space, concatenated. */
  function Spaced(ws: seq<string>): string {
    if ws == [] then "" else Spaced(ws[..|ws| - 1]) + ws[|ws| - 1] + " "
  }

  /** The lines concatenated, without separators. */
  function Concat(lines: seq<string>): string {
    if lines == [] then "" else Concat(lines[..|lines| - 1]) + lines[|lines| - 1]
  }

  lemma {:induction false} SpacedCons(w: string, ws: seq<string>)
    ensures Spaced([w] + ws) == w + " " + Spaced(ws)
    decreases |ws|
  {
    if ws != [] {
      var init := ws[..|ws| - 1];
      SpacedCons(w, init);
      assert ([w] + ws)[..|ws|] == [w] + init;
    }
  }

  lemma {:induction false} WordsSkipSpace(s: string)
    ensures Words(" " + s) == Words(s)
  {
    assert (" " + s)[1..] == s;
  }

  /**
   * Splitting the space-separated words gives the words back: nothing is
   * lost, reordered or split.
   */
  lemma {:induction false} WordsOfSpaced(ws: seq<string>)
    requires forall i :: 0 <= i < |ws| ==> IsWord(ws[i])
    ensures Words(Spaced(ws)) == ws
    decreases |ws|
  {
    if ws != [] {
      var w := ws[0];
      var rest := ws[1..];
      assert ws == [w] + rest;
      SpacedCons(w, rest);
      var s := w + " " + Spaced(rest);
      assert SkipSpaces(s) == s;
      assert s[..|w|] == w;
      assert s[|w|] == ' ';
      WordEndIs(s, |w|);
      assert s[|w|..] == " " + Spaced(rest);
      WordsSkipSpace(Spaced(rest));
      WordsOfSpaced(rest);
    }
  }

  // ---------------------------------------------------------------------
  // column100
  // ---------------------------------------------------------------------

  /** The width a line of words may reach before the next word starts a new line. */
  const Width: nat := 95

  /** The indent every output line starts with. */
  const Indent: string := "    "

  /** One step of the `words.each` loop: extend the last line, or start a new one. */
  function Step(lines: seq<string>, word: string): (r: seq<string>)
    requires lines != []
    ensures |r| >= |lines| && r[..|lines| - 1] == lines[..|lines| - 1]
  {
    var last := lines[|lines| - 1];
    if |last| + |word| < Width then lines[|lines| - 1 := last + word + " "]
    else lines + [word + " "]
  }

  /** The lines the loop holds after the given words, starting from `[""]`. */
  function Wrap(words: seq<string>): (lines: seq<string>)
    ensures |lines| >= 1
  {
    if words == [] then [""] else Step(Wrap(words[..|words| - 1]), words[|words| - 1])
  }

  /** `lines.map { |line| "    #{line}" }`. */
  function IndentAll(lines: seq<string>): (r: seq<string>)
    ensures |r| == |lines| && forall i :: 0 <= i < |r| ==> r[i] == Indent + lines[i]
  {
    if lines == [] then [] else [Indent + lines[0]] + IndentAll(lines[1..])
  }

  /** What `column100(input)` returns. */
  function Columns(input: string): string {
    Join(IndentAll(Wrap(Words(input))), "\n")
  }

  /** `InfoInspect.column100`: greedy word wrap at width 95 with a four-space indent. */
  method Column100(input: string) returns (out: string)
    ensures out == Columns(input)
  {
    var words := Words(input);
    var lines := [""];
    var i := 0;
    while i < |words|
      invariant 0 <= i <= |words|
      invariant lines == Wrap(words[..i])
    {
      var word := words[i];
      assert words[..i + 1][..i] == words[..i];
      assert Wrap(words[..i + 1]) == Step(lines, word);
      if |lines[|lines| - 1]| + |word| < Width {
        lines := lines[|lines| - 1 := lines[|lines| - 1] + word + " "];
      } else {
        lines := lines + [word + " "];
      }
      i := i + 1;
    }
    assert words[..|words|] == words;
    out := Join(IndentAll(lines), "\n");
  }

  lemma ConcatSnoc(lines: seq<string>, x: string)
    ensures Concat(lines + [x]) == Concat(lines) + x
  {
    assert (lines + [x])[..|lines|] == lines;
  }

  /** Concatenating the wrapped lines gives every word followed by one space, in order. */
  lemma {:induction false} WrapKeepsWords(words: seq<string>)
    ensures Concat(Wrap(words)) == Spaced(words)
  {
    if words != [] {
      var init := words[..|words| - 1];
      var w := words[|words| - 1];
      WrapKeepsWords(init);
      StepKeepsWord(Wrap(init), w);
    }
  }

  /** One loop step adds the word and one space to the end of the text, wherever it places them. */
  lemma StepKeepsWord(lines: seq<string>, w: string)
    requires lines != []
    ensures Concat(Step(lines, w)) == Concat(lines) + w + " "
  {
    var n := |lines|;
    var last := lines[n - 1];
    var front := lines[..n - 1];
    assert lines == front + [last];
    ConcatSnoc(front, last);
    if |last| + |w| < Width {
      assert Step(lines, w) == front + [last + w + " "];
      ConcatSnoc(front, last + w + " ");
    } else {
      ConcatSnoc(lines, w + " ");
    }
  }

  /** Nothing but one word and its trailing space. */
  predicate SingleWordLine(line: string) {
    |line| >= 1 && line[|line| - 1] == ' ' && IsWord(line[..|line| - 1])
  }

  /** A line never exceeds the width, unless it holds one word that alone is too long. */
  lemma {:induction false} WrapWidth(words: seq<string>)
    requires forall i :: 0 <= i < |words| ==> IsWord(words[i])
    ensures forall i :: 0 <= i < |Wrap(words)| ==> |Wrap(words)[i]| <= Width || SingleWordLine(Wrap(words)[i])
  {
    if words != [] {
      var init := words[..|words| - 1];
      var w := words[|words| - 1];
      WrapWidth(init);
      var lines := Wrap(init);
      if |lines[|lines| - 1]| + |w| >= Width {
        assert (w + " ")[..|w|] == w;
      }
    }
  }

  /** The characters a line is made of: word characters and the single spaces after them. */
  predicate LineShape(line: string) {
    && (line == "" || (!IsSpace(line[0]) && line[|line| - 1] == ' '))
    && forall i :: 0 <= i < |line| ==> line[i] == ' ' || !IsSpace(line[i])
  }

  /** Every line is empty or starts with a word and ends with a space; only the first can be empty. */
  lemma {:induction false} WrapShape(words: seq<string>)
    requires forall i :: 0 <= i < |words| ==> IsWord(words[i])
    ensures forall i :: 0 <= i < |Wrap(words)| ==> LineShape(Wrap(words)[i])
    ensures forall i :: 1 <= i < |Wrap(words)| ==> Wrap(words)[i] != ""
  {
    if words != [] {
      var init := words[..|words| - 1];
      WrapShape(init);
    }
  }

  /** The word a line starts with. */
  function FirstWord(line: string): string {
    line[..WordEnd(line)]
  }

  lemma FirstWordOfAppend(line: string, x: string)
    requires WordEnd(line) < |line|
    ensures FirstWord(line + x) == FirstWord(line)
  {
    var k := WordEnd(line);
    assert (line + x)[..k] == line[..k];
    assert (line + x)[k] == line[k];
    WordEndIs(line + x, k);
  }

  /**
   * Greedy: a line ends only where the first word of the next line does
   * not fit, `line.size + word.size < 95` being false.
   */
  lemma {:induction false} WrapGreedy(words: seq<string>)
    requires forall i :: 0 <= i < |words| ==> IsWord(words[i])
    ensures forall i :: 0 <= i < |Wrap(words)| - 1 ==> |Wrap(words)[i]| + |FirstWord(Wrap(words)[i + 1])| >= Width
  {
    if words != [] {
      var init := words[..|words| - 1];
      var w := words[|words| - 1];
      WrapGreedy(init);
      WrapShape(init);
      var lines := Wrap(init);
      var n := |lines|;
      var last := lines[n - 1];
      if |last| + |w| < Width {
        if n > 1 {
          assert LineShape(last) && last != "";
          assert IsSpace(last[|last| - 1]);
          assert WordEnd(last) < |last|;
          FirstWordOfAppend(last, w + " ");
          assert last + w + " " == last + (w + " ");
        }
      } else {
        assert (w + " ")[|w|] == ' ';
        WordEndIs(w + " ", |w|);
        assert (w + " ")[..|w|] == w;
      }
    }
  }

  /** A single word splits into itself. */
  lemma WordsOfWord(w: string)
    requires IsWord(w)
    ensures Words(w) == [w]
  {
    assert SkipSpaces(w) == w;
    WordEndIs(w, |w|);
    assert w[..|w|] == w && w[|w|..] == [];
  }

  /** A first word that alone reaches the width leaves the first line empty. */
  lemma LongFirstWordLeavesBlankLine(w: string)
    requires IsWord(w) && |w| >= Width
    ensures Wrap([w]) == ["", w + " "]
  {
    assert [w][..0] == [];
    assert Wrap([w]) == Step([""], w);
  }

  /** The output then starts with a line holding only the indent. */
  lemma LongFirstWordColumns(w: string)
    requires IsWord(w) && |w| >= Width
    ensures Columns(w) == Indent + "\n" + Indent + w + " "
  {
    WordsOfWord(w);
    LongFirstWordLeavesBlankLine(w);
    BlankThenWord(w + " ");
  }

  lemma BlankThenWord(line: string)
    ensures Join(IndentAll(["", line]), "\n") == Indent + "\n" + Indent + line
  {
    var r := IndentAll(["", line]);
    assert r[0] == Indent + "" == Indent;
    assert r[1..] == [Indent + line];
  }

  /**
   * The output lines are the wrapped lines, each after exactly four
   * spaces (no line starts with a space of its own), joined by line feeds.
   */
  lemma ColumnsLines(input: string)
    ensures Lines(Columns(input)) == IndentAll(Wrap(Words(input)))
    ensures forall i :: 0 <= i < |Lines(Columns(input))| ==>
              Lines(Columns(input))[i][..4] == Indent
              && (|Lines(Columns(input))[i]| == 4 || !IsSpace(Lines(Columns(input))[i][4]))
  {
    var lines := Wrap(Words(input));
    WrapShape(Words(input));
    var indented := IndentAll(lines);
    forall i | 0 <= i < |indented|
      ensures '\n' !in indented[i]
      ensures indented[i][..4] == Indent && (|indented[i]| == 4 || !IsSpace(indented[i][4]))
    {
      IndentedLine(lines[i]);
    }
    LinesOfJoin(indented);
  }

  /** An indented line holds no line feed, and its text starts right after the four spaces. */
  lemma IndentedLine(line: string)
    requires LineShape(line)
    ensures '\n' !in Indent + line
    ensures (Indent + line)[..4] == Indent && (|Indent + line| == 4 || !IsSpace((Indent + line)[4]))
  {
    var x := Indent + line;
    forall k | 0 <= k < |x| ensures x[k] != '\n' {
      if k >= 4 { assert x[k] == line[k - 4]; }
    }
    assert x[..4] == Indent;
    if |x| > 4 { assert x[4] == line[0]; }
  }

  /** Input without words (empty or blank) gives one indented empty line, never "". */
  lemma ColumnsOfBlank(input: string)
    requires Words(input) == []
    ensures Columns(input) == Indent
  {
  }

  // ---------------------------------------------------------------------
  // inspect: sections, plurals and the chain label
  // ---------------------------------------------------------------------

  /** `count == 1 ? "" : "s"`. */
  function Plural(count: nat): (r: string)
    ensures r == "" <==> count == 1
    ensures r == "" || r == "s"
  {
    if count == 1 then "" else "s"
  }

  /** The arrow between two chain elements. */
  const Arrow: string := " →  "

  /**
   * `chain.join(" →  ") + " →  …"`: the chain's labels, with an ellipsis
   * as one more element at the end.
   */
  function ChainLabel(labels: seq<string>): (r: string)
    ensures labels == [] ==> r == Arrow + "…"
    ensures labels != [] ==> r == Join(labels + ["…"], Arrow)
  {
    var r := Join(labels, Arrow) + Arrow + "…";
    if labels == [] then r else JoinAppend(labels, "…", Arrow); r
  }

  /** The labels (`to_s`) of the chain's nodes. */
  function Labels(w: World, chain: seq<NodeId>): (r: seq<string>)
    ensures |r| == |chain| && forall i :: 0 <= i < |r| ==> r[i] == Info(w, chain[i]).display
  {
    if chain == [] then [] else [Info(w, chain[0]).display] + Labels(w, chain[1..])
  }

  /** The four optional sections, in the order they are appended. */
  datatype ListKind = VariablesList | PublicList | ProtectedList | PrivateList

  /** The headline noun of a section. */
  function Noun(kind: ListKind): string {
    match kind
    case VariablesList => "Instance Variable"
    case PublicList => "Public Method"
    case ProtectedList => "Protected Method"
    case PrivateList => "Private Method"
  }

  /**
   * One section of the summary: the lookup chain with its wrapped label,
   * or a list with its count, its plural suffix and its heading.
   */
  datatype Section =
    | ChainSection(body: string)
    | ListSection(kind: ListKind, items: seq<string>, plural: string, heading: string)

  function Rank(s: Section): nat {
    match s
    case ChainSection(_) => 0
    case ListSection(kind, _, _, _) =>
      match kind
      case VariablesList => 1
      case PublicList => 2
      case ProtectedList => 3
      case PrivateList => 4
  }

  /** A list section for `items`, with its plural and heading. */
  function MakeList(kind: ListKind, items: seq<string>): (s: Section)
    ensures s.ListSection? && s.kind == kind && s.items == items && s.plural == Plural(|items|)
  {
    var plural := Plural(|items|);
    var suffix := if kind == VariablesList then "" else " (Non-Class/Object)";
    ListSection(kind, items, plural, Noun(kind) + plural + suffix)
  }

  /** The section of `kind` is present, with these items. */
  predicate HasList(sections: seq<Section>, kind: ListKind, items: seq<string>) {
    exists i :: 0 <= i < |sections| && sections[i].ListSection? && sections[i].kind == kind
                && sections[i].items == items
  }

  /** No section of `kind` is present. */
  predicate LacksList(sections: seq<Section>, kind: ListKind) {
    forall i :: 0 <= i < |sections| ==> !(sections[i].ListSection? && sections[i].kind == kind)
  }

  /** `instance_of?(Object) ? :all : Object`. */
  function InheritTill(w: World, o: Obj): (r: Inherit)
    ensures r == AllAncestors <==> o.klass == w.objectNode
    ensures r != AllAncestors ==> r == UpTo(w.objectNode)
  {
    if o.klass == w.objectNode then AllAncestors else UpTo(w.objectNode)
  }

  /**
   * `methods(scope: scope)` with the other defaults (`target: :self`,
   * `inherit: :exclude_class`) never raises for a known scope.
   */
  function DefaultMethods(w: World, o: Obj, scope: Scope): (r: seq<Name>)
    requires scope != UnknownScope
    ensures Methods(w, o, SelfTarget, scope, ExcludeClass) == Ok(r)
  {
    ChainIsTruncation(w, o, SelfTarget, ExcludeClass, true);
    Methods(w, o, SelfTarget, scope, ExcludeClass).value
  }

  /** `method_lookup_chain(inherit: inherit_till)`, which never raises or is nil. */
  function InspectedChain(w: World, o: Obj): (r: seq<NodeId>)
    ensures MethodLookupChain(w, o, SelfTarget, InheritTill(w, o)) == Ok(Some(r))
  {
    MethodLookupChain(w, o, SelfTarget, InheritTill(w, o)).value.value
  }

  /** The section for `kind` is there with `items` exactly when `items` is not empty. */
  predicate ListRule(sections: seq<Section>, kind: ListKind, items: seq<string>) {
    (items != [] ==> HasList(sections, kind, items)) && (items == [] ==> LacksList(sections, kind))
  }

  /** Appending a section of another kind keeps the rule for `kind`. */
  lemma AppendKeepsRule(sections: seq<Section>, s: Section, kind: ListKind, items: seq<string>)
    requires ListRule(sections, kind, items)
    requires !(s.ListSection? && s.kind == kind)
    ensures ListRule(sections + [s], kind, items)
  {
    if items != [] {
      var i :| 0 <= i < |sections| && sections[i].ListSection? && sections[i].kind == kind
               && sections[i].items == items;
      assert (sections + [s])[i] == sections[i];
    }
  }

  /** Appending a section of another kind keeps a kind absent. */
  lemma AppendKeepsLack(sections: seq<Section>, s: Section, kind: ListKind)
    requires LacksList(sections, kind)
    requires !(s.ListSection? && s.kind == kind)
    ensures LacksList(sections + [s], kind)
  {
  }

  /** Appending the section of `kind` for non-empty `items` establishes the rule. */
  lemma AppendEstablishesRule(sections: seq<Section>, kind: ListKind, items: seq<string>)
    requires items != [] && LacksList(sections, kind)
    ensures ListRule(sections + [MakeList(kind, items)], kind, items)
  {
    assert (sections + [MakeList(kind, items)])[|sections|] == MakeList(kind, items);
  }

  /** Appending a list section of higher rank than the last keeps the sections well ordered. */
  lemma AppendKeepsOrder(sections: seq<Section>, s: Section)
    requires WellOrdered(sections)
    requires s.ListSection? && s.plural == Plural(|s.items|)
    requires Rank(sections[|sections| - 1]) < Rank(s)
    ensures WellOrdered(sections + [s])
  {
  }

  /** Sections are ordered by rank, each list section carrying the plural of its count. */
  predicate WellOrdered(sections: seq<Section>) {
    && |sections| >= 1
    && sections[0].ChainSection?
    && (forall i :: 1 <= i < |sections| ==> sections[i].ListSection? && sections[i].plural == Plural(|sections[i].items|))
    && (forall i, j :: 0 <= i < j < |sections| ==> Rank(sections[i]) < Rank(sections[j]))
  }

  /**
   * `InfoInspect#inspect`, without the `%` formatting: the lookup-chain
   * section comes first, with the wrapped chain label; each list section
   * follows, in the order variables, public, protected, private, exactly
   * when its list is not empty; every list section carries its items and
   * the plural suffix of their count.
   */
  method Inspect(w: World, o: Obj, variables: seq<Name>) returns (sections: seq<Section>)
    ensures WellOrdered(sections)
    ensures sections[0] == ChainSection(Columns(ChainLabel(Labels(w, InspectedChain(w, o)))))
    ensures ListRule(sections, VariablesList, variables)
    ensures ListRule(sections, PublicList, DefaultMethods(w, o, PublicScope))
    ensures ListRule(sections, ProtectedList, DefaultMethods(w, o, ProtectedScope))
    ensures ListRule(sections, PrivateList, DefaultMethods(w, o, PrivateScope))
  {
    var publicMethods := DefaultMethods(w, o, PublicScope);
    var protectedMethods := DefaultMethods(w, o, ProtectedScope);
    var privateMethods := DefaultMethods(w, o, PrivateScope);

    var chain := InspectedChain(w, o);
    var caption := ChainLabel(Labels(w, chain));
    var body := Column100(caption);

    sections := Assemble(body, variables, publicMethods, protectedMethods, privateMethods);
  }

  /**
   * The `res += ... unless list.empty?` steps of `inspect`: the chain
   * section, then each non-empty list in turn.
   */
  method Assemble(body: string, variables: seq<Name>, publicMethods: seq<Name>,
                  protectedMethods: seq<Name>, privateMethods: seq<Name>)
    returns (sections: seq<Section>)
    ensures WellOrdered(sections)
    ensures sections[0] == ChainSection(body)
    ensures ListRule(sections, VariablesList, variables)
    ensures ListRule(sections, PublicList, publicMethods)
    ensures ListRule(sections, ProtectedList, protectedMethods)
    ensures ListRule(sections, PrivateList, privateMethods)
  {
    var s0 := [ChainSection(body)];
    assert LacksList(s0, VariablesList) && LacksList(s0, PublicList);
    assert LacksList(s0, ProtectedList) && LacksList(s0, PrivateList);
    var s1 := AddList(s0, VariablesList, variables);
    assert LacksList(s1, PublicList) && LacksList(s1, ProtectedList) && LacksList(s1, PrivateList);
    var s2 := AddList(s1, PublicList, publicMethods);
    assert ListRule(s2, VariablesList, variables);
    assert LacksList(s2, ProtectedList) && LacksList(s2, PrivateList);
    var s3 := AddList(s2, ProtectedList, protectedMethods);
    assert ListRule(s3, VariablesList, variables) && ListRule(s3, PublicList, publicMethods);
    assert LacksList(s3, PrivateList);
    sections := AddList(s3, PrivateList, privateMethods);
  }

  /**
   * One `res += ... unless list.empty?` step: the section of `kind` is
   * appended exactly when `items` is not empty, and what holds of the
   * other kinds is kept.
   */
  method AddList(sections: seq<Section>, kind: ListKind, items: seq<string>) returns (r: seq<Section>)
    requires WellOrdered(sections)
    requires Rank(sections[|sections| - 1]) < Rank(MakeList(kind, items))
    ensures WellOrdered(r) && r[0] == sections[0]
    ensures Rank(r[|r| - 1]) <= Rank(MakeList(kind, items))
    ensures LacksList(sections, kind) ==> ListRule(r, kind, items)
    ensures forall k, its :: k != kind && ListRule(sections, k, its) ==> ListRule(r, k, its)
    ensures forall k :: k != kind && LacksList(sections, k) ==> LacksList(r, k)
  {
    if items == [] {
      r := sections;
    } else {
      var s := MakeList(kind, items);
      if LacksList(sections, kind) {
        AppendEstablishesRule(sections, kind, items);
      }
      forall k, its | k != kind && ListRule(sections, k, its) ensures ListRule(sections + [s], k, its) {
        AppendKeepsRule(sections, s, k, its);
      }
      forall k | k != kind && LacksList(sections, k) ensures LacksList(sections + [s], k) {
        AppendKeepsLack(sections, s, k);
      }
      AppendKeepsOrder(sections, s);
      r := sections + [s];
    }
  }
}
