/** What the two list-view widgets share: PHP's `empty()` on a view name,
    `strpos` and `str_replace` on strings, and the loop in `run()` that
    substitutes the four layout tokens one after the other.

    The framework's renderers are inputs: `renderSection` is a function from
    token to text, and the calls a widget makes to the framework are reported
    in order as a list of Call values. */
module ListSections {

  /** View parameters (`layoutViewParams`, `emptyViewParams`). */
  type Params = map<string, string>

  /** A call a widget makes to the framework or to user code. */
  datatype Call =
    | ParentRun                                   // ListView::run()
    | ParentRenderEmpty                           // ListView::renderEmpty()
    | RenderView(view: string, params: Params)    // getView()->render($view, $params)
    | InvokeClosure                               // call_user_func($closure), no arguments
    | RenderSection(token: string)                // $this->renderSection($token)

  /** The text something rendered, with the calls made to render it. */
  datatype Rendered = Rendered(text: string, calls: seq<Call>)

  /** What run() does in the end: hand over to ListView::run(), or echo. */
  datatype Output = ParentOutput | Echo(content: string)

  /** The layout tokens, in the order run() substitutes them. */
  const SectionTokens: seq<string> := ["{summary}", "{items}", "{pager}", "{sorter}"]

  /** PHP's empty() on a string: the empty string and "0" are empty. */
  predicate EmptyString(s: string) {
    s == "" || s == "0"
  }

  /** `strpos($s, $t) !== false`: `t` occurs somewhere in `s`. */
  predicate Occurs(t: string, s: string)
    decreases |s|
  {
    |t| <= |s| && (s[..|t|] == t || Occurs(t, s[1..]))
  }

  /** `t` sits in `s` at position `i`. */
  predicate OccursAtPos(t: string, s: string, i: int) {
    0 <= i && i + |t| <= |s| && s[i..i + |t|] == t
  }

  /** Occurs agrees with its definition by position: `t` occurs in `s`
      exactly when it sits in `s` at some position. */
  lemma {:induction false} OccursAt(t: string, s: string)
    ensures Occurs(t, s) <==> exists i :: OccursAtPos(t, s, i)
    decreases |s|
  {
    if |t| <= |s| {
      if s[..|t|] == t {
        assert OccursAtPos(t, s, 0);
      } else {
        OccursAt(t, s[1..]);
        if Occurs(t, s[1..]) {
          var i :| OccursAtPos(t, s[1..], i);
          assert s[1..][i..i + |t|] == s[i + 1..i + 1 + |t|];
          assert OccursAtPos(t, s, i + 1);
        }
        if exists i :: OccursAtPos(t, s, i) {
          var i :| OccursAtPos(t, s, i);
          assert i != 0;
          assert s[1..][i - 1..i - 1 + |t|] == s[i..i + |t|];
          assert OccursAtPos(t, s[1..], i - 1);
        }
      }
    }
  }

  /** `str_replace($search, $replace, $subject)` for one search string:
      scanning left to right, each occurrence of `search` is replaced and the
      scan resumes after it, so occurrences do not overlap and the inserted
      text is never scanned. An empty search leaves the subject as it is. */
  function StrReplace(search: string, replace: string, subject: string): string
    decreases |subject|
  {
    if |search| == 0 || |subject| < |search| then subject
    else if subject[..|search|] == search then replace + StrReplace(search, replace, subject[|search|..])
    else [subject[0]] + StrReplace(search, replace, subject[1..])
  }

  /** The pieces of `s` between the occurrences StrReplace finds:
      `explode($sep, $s)`. The first piece is a prefix of `s`. */
  function Split(sep: string, s: string): (r: seq<string>)
    requires |sep| > 0
    ensures |r| >= 1 && r[0] <= s
    decreases |s|
  {
    if |s| < |sep| then [s]
    else if s[..|sep|] == sep then [""] + Split(sep, s[|sep|..])
    else
      var rest := Split(sep, s[1..]);
      [[s[0]] + rest[0]] + rest[1..]
  }

  /** `implode($glue, $parts)`. */
  function Join(parts: seq<string>, glue: string): string
    requires |parts| >= 1
    decreases |parts|
  {
    if |parts| == 1 then parts[0] else parts[0] + glue + Join(parts[1..], glue)
  }

  lemma {:induction false} JoinConsFirst(c: char, parts: seq<string>, glue: string)
    requires |parts| >= 1
    ensures Join([[c] + parts[0]] + parts[1..], glue) == [c] + Join(parts, glue)
  {
    var p := [[c] + parts[0]] + parts[1..];
    assert p[1..] == parts[1..];
  }

  /** str_replace is implode of explode: where the replacements go depends on
      the subject alone and never on the replacement text. */
  lemma {:induction false} StrReplaceIsJoinOfSplit(search: string, replace: string, s: string)
    requires |search| > 0
    ensures StrReplace(search, replace, s) == Join(Split(search, s), replace)
    decreases |s|
  {
    if |s| < |search| {
    } else if s[..|search|] == search {
      StrReplaceIsJoinOfSplit(search, replace, s[|search|..]);
      var rest := Split(search, s[|search|..]);
      assert Split(search, s) == [""] + rest;
      assert ([""] + rest)[1..] == rest;
    } else {
      StrReplaceIsJoinOfSplit(search, replace, s[1..]);
      JoinConsFirst(s[0], Split(search, s[1..]), replace);
    }
  }

  /** Replacing a string by itself changes nothing. */
  lemma {:induction false} StrReplaceBySelf(t: string, s: string)
    ensures StrReplace(t, t, s) == s
    decreases |s|
  {
    if |t| == 0 || |s| < |t| {
    } else if s[..|t|] == t {
      StrReplaceBySelf(t, s[|t|..]);
      assert s == s[..|t|] + s[|t|..];
    } else {
      StrReplaceBySelf(t, s[1..]);
      assert s == [s[0]] + s[1..];
    }
  }

  /** Round trip: joining the pieces with the separator gives `s` back. */
  lemma SplitJoinRoundTrip(sep: string, s: string)
    requires |sep| > 0
    ensures Join(Split(sep, s), sep) == s
  {
    StrReplaceIsJoinOfSplit(sep, sep, s);
    StrReplaceBySelf(sep, s);
  }

  /** If `t` does not occur in `s`, `[c] + s` can only hold it at its start. */
  lemma OccursCons(t: string, c: char, s: string)
    requires |t| <= |s| + 1 && ([c] + s)[..|t|] != t && !Occurs(t, s)
    ensures !Occurs(t, [c] + s)
  {
    assert ([c] + s)[1..] == s;
  }

  /** Every occurrence is replaced: no piece between two replacements
      contains the search string. */
  lemma {:induction false} SplitPiecesAreFree(sep: string, s: string)
    requires |sep| > 0
    ensures forall p :: p in Split(sep, s) ==> !Occurs(sep, p)
    decreases |s|
  {
    if |s| < |sep| {
      assert !Occurs(sep, s);
    } else if s[..|sep|] == sep {
      SplitPiecesAreFree(sep, s[|sep|..]);
      assert !Occurs(sep, "");
    } else {
      SplitPiecesAreFree(sep, s[1..]);
      var rest := Split(sep, s[1..]);
      var first := [s[0]] + rest[0];
      assert rest[0] in rest;
      if |sep| <= |first| {
        assert rest[0] == s[1..][..|rest[0]|];
        assert first[..|sep|] == s[..|sep|];
        OccursCons(sep, s[0], rest[0]);
      } else {
        assert !Occurs(sep, first);
      }
      forall p | p in Split(sep, s) ensures !Occurs(sep, p) {
        if p != first {
          assert p in rest[1..];
        }
      }
    }
  }

  /** A search string that does not occur leaves the subject unchanged. */
  lemma {:induction false} StrReplaceAbsent(search: string, replace: string, s: string)
    requires !Occurs(search, s)
    ensures StrReplace(search, replace, s) == s
    decreases |s|
  {
    if |search| == 0 || |s| < |search| {
    } else {
      StrReplaceAbsent(search, replace, s[1..]);
      assert s == [s[0]] + s[1..];
    }
  }

  /** One step of the loop in run(): the token's section replaces every
      occurrence of the token, if there is one. */
  function Step(t: string, content: string, renderSection: string -> string): string {
    if Occurs(t, content) then StrReplace(t, renderSection(t), content) else content
  }

  /** The content after the first |tokens| steps of the loop in run(): each
      step works on the previous step's result. */
  function Substituted(layout: string, tokens: seq<string>, renderSection: string -> string): string
    decreases |tokens|
  {
    if tokens == [] then layout
    else Step(tokens[|tokens| - 1], Substituted(layout, tokens[..|tokens| - 1], renderSection), renderSection)
  }

  /** The steps for `tokens`, applied to `content` front to back. */
  function SubstituteFrom(content: string, tokens: seq<string>, renderSection: string -> string): string
    decreases |tokens|
  {
    if tokens == [] then content
    else SubstituteFrom(Step(tokens[0], content, renderSection), tokens[1..], renderSection)
  }

  /** The renderSection calls the first |tokens| steps of the loop make. */
  function SectionCalls(layout: string, tokens: seq<string>, renderSection: string -> string): seq<Call>
    decreases |tokens|
  {
    if tokens == [] then []
    else
      var before := Substituted(layout, tokens[..|tokens| - 1], renderSection);
      var t := tokens[|tokens| - 1];
      SectionCalls(layout, tokens[..|tokens| - 1], renderSection)
        + if Occurs(t, before) then [RenderSection(t)] else []
  }

  /** The loop of run(): for each token in order, if it occurs in the current
      content, render its section and replace every occurrence. */
  method ReplaceSections(layout: string, renderSection: string -> string)
    returns (content: string, calls: seq<Call>)
    ensures content == Substituted(layout, SectionTokens, renderSection)
    ensures calls == SectionCalls(layout, SectionTokens, renderSection)
  {
    var sections := SectionTokens;
    content, calls := layout, [];
    for i := 0 to |sections|
      invariant content == Substituted(layout, sections[..i], renderSection)
      invariant calls == SectionCalls(layout, sections[..i], renderSection)
    {
      assert sections[..i + 1][..i] == sections[..i];
      var section := sections[i];
      if Occurs(section, content) {
        calls := calls + [RenderSection(section)];
        content := StrReplace(section, renderSection(section), content);
      }
    }
    assert sections[..|sections|] == sections;
  }

  /** A layout holding none of the tokens passes through verbatim, and no
      section is rendered. */
  lemma {:induction false} NoTokensPassThrough(layout: string, tokens: seq<string>, renderSection: string -> string)
    requires forall t :: t in tokens ==> !Occurs(t, layout)
    ensures Substituted(layout, tokens, renderSection) == layout
    ensures SectionCalls(layout, tokens, renderSection) == []
    decreases |tokens|
  {
    if tokens != [] {
      var init := tokens[..|tokens| - 1];
      assert forall t :: t in init ==> t in tokens;
      NoTokensPassThrough(layout, init, renderSection);
      assert tokens[|tokens| - 1] in tokens;
    }
  }

  predicate Distinct(tokens: seq<string>) {
    forall i, j :: 0 <= i < j < |tokens| ==> tokens[i] != tokens[j]
  }

  /** The section of a token is rendered exactly when the token occurs in the
      content as it stands when the loop reaches that token. */
  lemma {:induction false} SectionRenderedIffPresent(
      layout: string, tokens: seq<string>, renderSection: string -> string, i: nat)
    requires Distinct(tokens) && i < |tokens|
    ensures RenderSection(tokens[i]) in SectionCalls(layout, tokens, renderSection)
            <==> Occurs(tokens[i], Substituted(layout, tokens[..i], renderSection))
    decreases |tokens|
  {
    var n := |tokens| - 1;
    var init := tokens[..n];
    var before := Substituted(layout, init, renderSection);
    CallsAreOf(layout, init, renderSection);
    if i == n {
      assert tokens[..i] == init;
      assert tokens[n] !in init;
    } else {
      assert init[i] == tokens[i] && init[..i] == tokens[..i];
      assert Distinct(init);
      SectionRenderedIffPresent(layout, init, renderSection, i);
    }
  }

  /** Every call the loop makes renders one of its tokens. */
  lemma {:induction false} CallsAreOf(layout: string, tokens: seq<string>, renderSection: string -> string)
    ensures forall c :: c in SectionCalls(layout, tokens, renderSection) ==> c.RenderSection? && c.token in tokens
    decreases |tokens|
  {
    if tokens != [] {
      var init := tokens[..|tokens| - 1];
      CallsAreOf(layout, init, renderSection);
      assert forall t :: t in init ==> t in tokens;
      assert tokens[|tokens| - 1] in tokens;
    }
  }

  /** Text a section renders is searched only for the tokens that come
      later: whatever the layout and the sections, the output is the content
      after step i with only the steps of tokens[i..] applied to it, so the
      text inserted before step i meets no token of tokens[..i] again. */
  lemma {:induction false} SubstitutedSplitAt(
      layout: string, tokens: seq<string>, renderSection: string -> string, i: nat)
    requires i <= |tokens|
    ensures Substituted(layout, tokens, renderSection)
            == SubstituteFrom(Substituted(layout, tokens[..i], renderSection), tokens[i..], renderSection)
    decreases |tokens| - i
  {
    if i == |tokens| {
      assert tokens[..i] == tokens;
    } else {
      SubstitutedSplitAt(layout, tokens, renderSection, i + 1);
      assert tokens[..i + 1][..i] == tokens[..i];
      assert tokens[i..][1..] == tokens[i + 1..];
    }
  }

  /** Steps whose tokens do not occur leave the content as it is. */
  lemma {:induction false} AbsentTokensKeepContent(content: string, tokens: seq<string>, renderSection: string -> string)
    requires forall t :: t in tokens ==> !Occurs(t, content)
    ensures SubstituteFrom(content, tokens, renderSection) == content
    decreases |tokens|
  {
    if tokens != [] {
      assert tokens[0] in tokens;
      assert forall t :: t in tokens[1..] ==> t in tokens;
      AbsentTokensKeepContent(content, tokens[1..], renderSection);
    }
  }

  /** Once the content after step i holds none of the later tokens, it is
      the output: a token of tokens[..i] that a section rendered into it is
      kept as text. */
  lemma NoLaterTokenIsFinal(layout: string, tokens: seq<string>, renderSection: string -> string, i: nat)
    requires i <= |tokens|
    requires forall t :: t in tokens[i..] ==> !Occurs(t, Substituted(layout, tokens[..i], renderSection))
    ensures Substituted(layout, tokens, renderSection) == Substituted(layout, tokens[..i], renderSection)
  {
    SubstitutedSplitAt(layout, tokens, renderSection, i);
    AbsentTokensKeepContent(Substituted(layout, tokens[..i], renderSection), tokens[i..], renderSection);
  }

  /** An instance: if the items section renders as "{summary}", that text
      stays as it is. */
  lemma SectionTextNotRescannedForEarlierToken(renderSection: string -> string)
    requires renderSection("{items}") == "{summary}"
    ensures Substituted("{items}", SectionTokens, renderSection) == "{summary}"
  {
    assert SectionTokens[..1][..0] == [];
    assert SectionTokens[..2][..1] == SectionTokens[..1];
    assert SectionTokens[..3][..2] == SectionTokens[..2];
    assert SectionTokens[..4][..3] == SectionTokens[..3];
    assert SectionTokens[..4] == SectionTokens;
    assert !Occurs("{summary}", "{items}");
    assert Substituted("{items}", SectionTokens[..1], renderSection) == "{items}";
    assert Occurs("{items}", "{items}");
    assert StrReplace("{items}", "{summary}", "{items}") == "{summary}" + StrReplace("{items}", "{summary}", "");
    assert Substituted("{items}", SectionTokens[..2], renderSection) == "{summary}";
    NotOccursSummary("{pager}");
    assert Substituted("{items}", SectionTokens[..3], renderSection) == "{summary}";
    NotOccursSummary("{sorter}");
  }

  /** Neither "{pager}" nor "{sorter}" occurs in "{summary}". */
  lemma NotOccursSummary(t: string)
    requires t == "{pager}" || t == "{sorter}"
    ensures !Occurs(t, "{summary}")
  {
    var s := "{summary}";
    if t == "{pager}" {
      assert s[..7][1] != t[1];
      assert s[1..][..7][0] != t[0];
      assert s[1..][1..] == s[2..];
      assert s[2..][..7][0] != t[0];
      assert s[2..][1..] == s[3..];
      assert !Occurs(t, s[3..]);
    } else {
      assert s[..8][2] != t[2];
      assert s[1..][..8][0] != t[0];
      assert s[1..][1..] == s[2..];
      assert !Occurs(t, s[2..]);
    }
  }

  /** An instance of the other direction: a later token in the text an
      earlier section renders is replaced in turn, so if the summary renders
      as "{items}", the items section ends up in the output. */
  lemma SectionTextRescannedForLaterToken(renderSection: string -> string)
    requires renderSection("{summary}") == "{items}"
    requires forall t :: t in SectionTokens ==> !Occurs(t, renderSection("{items}"))
    ensures Substituted("{summary}", SectionTokens, renderSection) == renderSection("{items}")
  {
    var items := renderSection("{items}");
    assert SectionTokens[..0] == [];
    assert SectionTokens[..1][..0] == [];
    assert SectionTokens[..2][..1] == SectionTokens[..1];
    assert SectionTokens[..3][..2] == SectionTokens[..2];
    assert SectionTokens[..4][..3] == SectionTokens[..3];
    assert SectionTokens[..4] == SectionTokens;
    assert Occurs("{summary}", "{summary}");
    assert StrReplace("{summary}", "{items}", "{summary}") == "{items}" + StrReplace("{summary}", "{items}", "");
    assert Substituted("{summary}", SectionTokens[..1], renderSection) == "{items}";
    assert Occurs("{items}", "{items}");
    assert StrReplace("{items}", items, "{items}") == items + StrReplace("{items}", items, "");
    assert Substituted("{summary}", SectionTokens[..2], renderSection) == items;
    assert SectionTokens[2] in SectionTokens && SectionTokens[3] in SectionTokens;
  }
}
