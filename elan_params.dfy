/**
 * The parameter protocol ELAN speaks to a local recognizer: every line on
 * standard input is searched for `<param name="NAME" ...>VALUE</param>`, and
 * the stripped VALUE is recorded under NAME, later lines overwriting earlier ones.
 * Afterwards the run is abandoned when no non-empty `output_segments` was given.
 */
module ElanParams {
  import opened Wrappers
  import opened Text

  const ParamOpen: string := "<param name=\""
  const ParamClose: string := "</param>"

  // ---------------------------------------------------------------------------
  // One line: the search for <param name="(.*?)".*?>(.*?)</param>
  // ---------------------------------------------------------------------------

  /**
   * Positions of one way the pattern can match `line`: the opening text at `p`,
   * the quote closing NAME at `q`, the `>` opening VALUE at `g`, `</param>` at `t`.
   */
  ghost predicate MatchAt(line: string, p: nat, q: nat, g: nat, t: nat) {
    && OccursAt(line, ParamOpen, p)
    && p + |ParamOpen| <= q < g < t
    && OccursAt(line, ParamClose, t)
    && line[q] == '"' && line[g] == '>'
  }

  /**
   * The match a leftmost, non-greedy search picks: the earliest opening text,
   * then the shortest NAME, the shortest run up to `>`, and the shortest VALUE.
   */
  ghost predicate FirstMatch(line: string, p: nat, q: nat, g: nat, t: nat) {
    && MatchAt(line, p, q, g, t)
    && (forall k :: 0 <= k < p ==> !OccursAt(line, ParamOpen, k))
    && (forall k :: p + |ParamOpen| <= k < q ==> line[k] != '"')
    && (forall k :: q < k < g ==> line[k] != '>')
    && (forall k :: g < k < t ==> !OccursAt(line, ParamClose, k))
  }

  /** The two groups of a match: NAME and the unstripped VALUE. */
  function Groups(line: string, p: nat, q: nat, g: nat, t: nat): (string, string)
    requires p + |ParamOpen| <= q < g < t <= |line|
  {
    (line[p + |ParamOpen|..q], line[g + 1..t])
  }

  /** `re.search(r'<param name="(.*?)".*?>(.*?)</param>', line)`, giving its two groups. */
  function MatchParam(line: string): Option<(string, string)> {
    match FindFrom(line, ParamOpen, 0)
    case None => None
    case Some(p) => MatchName(line, p)
  }

  /** The search continued after the opening text found at `p`: the quote closing NAME. */
  function MatchName(line: string, p: nat): Option<(string, string)> {
    match FindFrom(line, "\"", p + |ParamOpen|)
    case None => None
    case Some(q) => MatchValue(line, p, q)
  }

  /** The search continued after NAME's closing quote at `q`: the `>` opening VALUE. */
  function MatchValue(line: string, p: nat, q: nat): Option<(string, string)>
    requires p + |ParamOpen| <= q
  {
    match FindFrom(line, ">", q + 1)
    case None => None
    case Some(g) => MatchClose(line, p, q, g)
  }

  /** The search continued after the `>` at `g`: the `</param>` closing VALUE. */
  function MatchClose(line: string, p: nat, q: nat, g: nat): Option<(string, string)>
    requires p + |ParamOpen| <= q < g
  {
    match FindFrom(line, ParamClose, g + 1)
    case None => None
    case Some(t) => Some(Groups(line, p, q, g, t))
  }

  lemma OccursAtChar(s: string, c: char, k: nat)
    ensures OccursAt(s, [c], k) <==> k < |s| && s[k] == c
  {
    if k < |s| { assert s[k..k + 1] == [s[k]]; }
  }

  /** Four chained searches that succeed locate the first match. */
  lemma SearchesLocateFirstMatch(line: string, p: nat, q: nat, g: nat, t: nat)
    requires FindFrom(line, ParamOpen, 0) == Some(p)
    requires FindFrom(line, "\"", p + |ParamOpen|) == Some(q)
    requires FindFrom(line, ">", q + 1) == Some(g)
    requires FindFrom(line, ParamClose, g + 1) == Some(t)
    ensures FirstMatch(line, p, q, g, t)
  {
    OccursAtChar(line, '"', q);
    OccursAtChar(line, '>', g);
    forall k | p + |ParamOpen| <= k < q ensures line[k] != '"' {
      OccursAtChar(line, '"', k);
    }
    forall k | q < k < g ensures line[k] != '>' {
      OccursAtChar(line, '>', k);
    }
  }

  lemma OpenFound(line: string)
    requires MatchParam(line).Some?
    ensures var p := FindFrom(line, ParamOpen, 0);
      p.Some? && MatchName(line, p.value) == MatchParam(line)
  {
  }

  lemma NameFound(line: string, p: nat)
    requires MatchName(line, p).Some?
    ensures var q := FindFrom(line, "\"", p + |ParamOpen|);
      q.Some? && p + |ParamOpen| <= q.value && MatchValue(line, p, q.value) == MatchName(line, p)
  {
  }

  lemma ValueFound(line: string, p: nat, q: nat)
    requires p + |ParamOpen| <= q && MatchValue(line, p, q).Some?
    ensures var g := FindFrom(line, ">", q + 1);
      g.Some? && q < g.value && MatchClose(line, p, q, g.value) == MatchValue(line, p, q)
  {
  }

  lemma CloseFound(line: string, p: nat, q: nat, g: nat)
    requires p + |ParamOpen| <= q < g && MatchClose(line, p, q, g).Some?
    ensures var t := FindFrom(line, ParamClose, g + 1);
      t.Some? && g < t.value <= |line| && MatchClose(line, p, q, g) == Some(Groups(line, p, q, g, t.value))
  {
  }

  /** The positions the nested searches report when the search succeeds. */
  lemma FoundMatch(line: string) returns (p: nat, q: nat, g: nat, t: nat)
    requires MatchParam(line).Some?
    ensures FindFrom(line, ParamOpen, 0) == Some(p) && FindFrom(line, "\"", p + |ParamOpen|) == Some(q)
    ensures FindFrom(line, ">", q + 1) == Some(g) && FindFrom(line, ParamClose, g + 1) == Some(t)
    ensures p + |ParamOpen| <= q < g < t <= |line|
    ensures MatchParam(line).value == Groups(line, p, q, g, t)
  {
    OpenFound(line);
    p := FindFrom(line, ParamOpen, 0).value;
    NameFound(line, p);
    q := FindFrom(line, "\"", p + |ParamOpen|).value;
    ValueFound(line, p, q);
    g := FindFrom(line, ">", q + 1).value;
    CloseFound(line, p, q, g);
    t := FindFrom(line, ParamClose, g + 1).value;
  }

  /** What the search reports is the leftmost, non-greedy match. */
  lemma MatchParamSound(line: string)
    requires MatchParam(line).Some?
    ensures exists p, q, g, t :: FirstMatch(line, p, q, g, t) && MatchParam(line).value == Groups(line, p, q, g, t)
  {
    var p, q, g, t := FoundMatch(line);
    SearchesLocateFirstMatch(line, p, q, g, t);
  }

  /** Whenever the pattern can match at all, the search finds a match. */
  lemma MatchParamComplete(line: string, p: nat, q: nat, g: nat, t: nat)
    requires MatchAt(line, p, q, g, t)
    ensures MatchParam(line).Some?
  {
    var p0 := FindFrom(line, ParamOpen, 0);
    assert p0.Some? && p0.value <= p;
    OccursAtChar(line, '"', q);
    var q0 := FindFrom(line, "\"", p0.value + |ParamOpen|);
    assert q0.Some? && q0.value <= q;
    OccursAtChar(line, '>', g);
    var g0 := FindFrom(line, ">", q0.value + 1);
    assert g0.Some? && g0.value <= g;
    var t0 := FindFrom(line, ParamClose, g0.value + 1);
    assert t0.Some?;
  }

  /** A line as iterating over a text stream yields it: a newline can only be its last character. */
  predicate IsInputLine(line: string) {
    forall k :: 0 <= k < |line| - 1 ==> line[k] != '\n'
  }

  /**
   * In an input line no match spans a newline, so `.` in the pattern (which
   * does not match a newline) never rules out a match that MatchAt admits.
   */
  lemma MatchAvoidsNewline(line: string, p: nat, q: nat, g: nat, t: nat)
    requires IsInputLine(line) && MatchAt(line, p, q, g, t)
    ensures forall k :: p <= k < t + |ParamClose| ==> line[k] != '\n'
  {
    assert line[t + |ParamClose| - 1] == line[t..t + |ParamClose|][|ParamClose| - 1] == '>';
  }

  // ---------------------------------------------------------------------------
  // All lines: the params dictionary
  // ---------------------------------------------------------------------------

  /** `line` matches the pattern with NAME equal to `name`. */
  predicate NamesParam(line: string, name: string) {
    MatchParam(line).Some? && MatchParam(line).value.0 == name
  }

  /** The `params` dictionary after reading `lines` in order. */
  function ParamsOf(lines: seq<string>): map<string, string> {
    if lines == [] then map[]
    else
      var before := ParamsOf(lines[..|lines| - 1]);
      match MatchParam(lines[|lines| - 1])
      case None => before
      case Some(groups) => before[groups.0 := Strip(groups.1)]
  }

  /** Reads the parameter lines, filling the dictionary one line at a time. */
  method ReadParams(lines: seq<string>) returns (params: map<string, string>)
    ensures params == ParamsOf(lines)
  {
    params := map[];
    var i := 0;
    while i < |lines|
      invariant 0 <= i <= |lines|
      invariant params == ParamsOf(lines[..i])
    {
      assert lines[..i + 1][..i] == lines[..i];
      var found := MatchParam(lines[i]);
      if found.Some? {
        params := params[found.value.0 := Strip(found.value.1)];
      }
      i := i + 1;
    }
    assert lines[..|lines|] == lines;
  }

  /** A line that does not match leaves the dictionary as it was. */
  lemma NonMatchingLineKeepsParams(lines: seq<string>, line: string)
    requires MatchParam(line).None?
    ensures ParamsOf(lines + [line]) == ParamsOf(lines)
  {
    assert (lines + [line])[..|lines|] == lines;
  }

  /** A matching line sets its NAME to its stripped VALUE and changes nothing else. */
  lemma MatchingLineSetsParam(lines: seq<string>, line: string)
    requires MatchParam(line).Some?
    ensures var (name, value) := MatchParam(line).value;
      && ParamsOf(lines + [line])[name] == Strip(value)
      && (forall n :: n != name ==> (n in ParamsOf(lines + [line]) <==> n in ParamsOf(lines)))
      && (forall n :: n != name && n in ParamsOf(lines) ==> ParamsOf(lines + [line])[n] == ParamsOf(lines)[n])
  {
    assert (lines + [line])[..|lines|] == lines;
  }

  /** The index of the last element of `xs` satisfying `p`, if any. */
  function LastWhere<T>(xs: seq<T>, p: T -> bool): (r: Option<nat>)
    ensures r.Some? ==> r.value < |xs| && p(xs[r.value])
  {
    if xs == [] then None
    else if p(xs[|xs| - 1]) then Some(|xs| - 1)
    else LastWhere(xs[..|xs| - 1], p)
  }

  /** No element after the one `LastWhere` finds satisfies `p`, and when it finds none, none does. */
  lemma {:induction false} LastWhereSpec<T>(xs: seq<T>, p: T -> bool)
    ensures var r := LastWhere(xs, p);
      && (r.Some? ==> forall j :: r.value < j < |xs| ==> !p(xs[j]))
      && (r.None? ==> forall j :: 0 <= j < |xs| ==> !p(xs[j]))
  {
    if xs != [] && !p(xs[|xs| - 1]) {
      var n := |xs| - 1;
      var init := xs[..n];
      LastWhereSpec(init, p);
      forall j | 0 <= j < n
        ensures xs[j] == init[j]
      {
      }
    }
  }

  /** The index of the last line whose NAME is `name`, if any. */
  function LastNaming(lines: seq<string>, name: string): (r: Option<nat>)
    ensures r.Some? ==> r.value < |lines| && NamesParam(lines[r.value], name)
  {
    LastWhere(lines, line => NamesParam(line, name))
  }

  /** No line after the one `LastNaming` finds names `name`, and when it finds none, no line does. */
  lemma LastNamingSpec(lines: seq<string>, name: string)
    ensures var r := LastNaming(lines, name);
      && (r.Some? ==> forall j :: r.value < j < |lines| ==> !NamesParam(lines[j], name))
      && (r.None? ==> forall j :: 0 <= j < |lines| ==> !NamesParam(lines[j], name))
  {
    LastWhereSpec(lines, line => NamesParam(line, name));
  }

  /**
   * A name is in the dictionary exactly when some line names it, and its value
   * is the stripped VALUE of the last line naming it.
   */
  lemma {:induction false} ParamsOfLastWins(lines: seq<string>, name: string)
    ensures name in ParamsOf(lines) <==> LastNaming(lines, name).Some?
    ensures name in ParamsOf(lines) ==>
      ParamsOf(lines)[name] == Strip(MatchParam(lines[LastNaming(lines, name).value]).value.1)
  {
    if lines != [] {
      var init := lines[..|lines| - 1];
      ParamsOfLastWins(init, name);
      if !NamesParam(lines[|lines| - 1], name) {
        var found := LastNaming(init, name);
        assert found == LastNaming(lines, name);
        if found.Some? {
          assert lines[found.value] == init[found.value];
        }
      }
    }
  }

  // ---------------------------------------------------------------------------
  // The output check
  // ---------------------------------------------------------------------------

  const OutputKey: string := "output_segments"

  /** `params.get('output_segments', '')` is truthy: present and non-empty. */
  predicate HasOutput(params: map<string, string>) {
    OutputKey in params && params[OutputKey] != ""
  }

  /**
   * The output check on the lines as read: it passes exactly when some line
   * names `output_segments` and the last such line carries a VALUE that is not
   * all whitespace.
   */
  lemma HasOutputFromLines(lines: seq<string>)
    ensures HasOutput(ParamsOf(lines)) <==>
      var last := LastNaming(lines, OutputKey);
      last.Some? && Strip(MatchParam(lines[last.value]).value.1) != ""
  {
    ParamsOfLastWins(lines, OutputKey);
  }
}
