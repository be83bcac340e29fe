/** String joining as the preprocessing scripts use it: Python's `sep.join`
    for file names and POSIX `os.path.join` for directories. */
module Paths {

  /** Python's `sep.join(parts)`, folded from the left. */
  function Join(sep: string, parts: seq<string>): string
  {
    if |parts| == 0 then ""
    else if |parts| == 1 then parts[0]
    else Join(sep, parts[..|parts| - 1]) + sep + parts[|parts| - 1]
  }

  /** POSIX `os.path.join(a, b)`: an absolute `b` replaces `a`; a separator is
      inserted only when `a` is non-empty and does not already end in one. */
  function JoinTwo(a: string, b: string): string
  {
    if |b| > 0 && b[0] == '/' then b
    else if |a| == 0 || a[|a| - 1] == '/' then a + b
    else a + "/" + b
  }

  /** POSIX `os.path.join(head, *tail)`, folded left to right. */
  function PathJoin(head: string, tail: seq<string>): string
  {
    if |tail| == 0 then head
    else JoinTwo(PathJoin(head, tail[..|tail| - 1]), tail[|tail| - 1])
  }

  /** A string that can stand as one path component: non-empty, no separator. */
  predicate Name(s: string)
  {
    |s| > 0 && '/' !in s
  }

  /** A directory that does not end in a separator (it may contain separators). */
  predicate Dir(s: string)
  {
    |s| > 0 && s[|s| - 1] != '/'
  }

  /** `s.endswith(x)`. */
  predicate EndsWith(s: string, x: string)
  {
    |x| <= |s| && s[|s| - |x|..] == x
  }

  /** `os.path.join` ends the path with its last component, whatever came
      before it. */
  lemma PathJoinEndsWith(head: string, tail: seq<string>)
    requires |tail| > 0
    ensures EndsWith(PathJoin(head, tail), tail[|tail| - 1])
  {
    var p, x := PathJoin(head, tail[..|tail| - 1]), tail[|tail| - 1];
    if !(|x| > 0 && x[0] == '/') {
      var q := if |p| == 0 || p[|p| - 1] == '/' then p else p + "/";
      assert JoinTwo(p, x) == q + x;
      assert (q + x)[|q|..] == x;
    }
  }

  lemma JoinSnoc(sep: string, xs: seq<string>, y: string)
    requires |xs| > 0
    ensures Join(sep, xs + [y]) == Join(sep, xs) + sep + y
  {
    assert (xs + [y])[..|xs|] == xs;
  }

  /** Joining parts that contain no separator with a separator-free glue gives
      a string without separator. */
  lemma {:induction false} JoinKeepsNoSlash(sep: string, parts: seq<string>)
    requires '/' !in sep
    requires forall i :: 0 <= i < |parts| ==> '/' !in parts[i]
    ensures '/' !in Join(sep, parts)
  {
    if |parts| > 1 {
      JoinKeepsNoSlash(sep, parts[..|parts| - 1]);
    }
  }

  // Fixed-arity forms of the joins the path builders use.

  lemma Join2(sep: string, a: string, b: string)
    ensures Join(sep, [a, b]) == a + sep + b
  {
    assert [a, b][..1] == [a];
  }

  lemma Join3(sep: string, a: string, b: string, c: string)
    ensures Join(sep, [a, b, c]) == a + sep + b + sep + c
  {
    assert [a, b, c] == [a, b] + [c];
    JoinSnoc(sep, [a, b], c);
    Join2(sep, a, b);
  }

  lemma Join4(sep: string, a: string, b: string, c: string, d: string)
    ensures Join(sep, [a, b, c, d]) == a + sep + b + sep + c + sep + d
  {
    assert [a, b, c, d] == [a, b, c] + [d];
    JoinSnoc(sep, [a, b, c], d);
    Join3(sep, a, b, c);
  }

  lemma Join5(sep: string, a: string, b: string, c: string, d: string, e: string)
    ensures Join(sep, [a, b, c, d, e]) == a + sep + b + sep + c + sep + d + sep + e
  {
    assert [a, b, c, d, e] == [a, b, c, d] + [e];
    JoinSnoc(sep, [a, b, c, d], e);
    Join4(sep, a, b, c, d);
  }

  /** One `os.path.join` step from a plain directory to a plain component. */
  lemma JoinTwoNames(p: string, x: string)
    requires Dir(p) && Name(x)
    ensures JoinTwo(p, x) == p + "/" + x
    ensures Dir(p + "/" + x)
  {
    assert x[|x| - 1] in x;
  }

  lemma PathJoinSnoc(head: string, tail: seq<string>, x: string)
    ensures PathJoin(head, tail + [x]) == JoinTwo(PathJoin(head, tail), x)
  {
    assert (tail + [x])[..|tail|] == tail;
  }

  lemma PathJoin5(h: string, a: string, b: string, c: string, d: string, e: string)
    requires Dir(h) && Name(a) && Name(b) && Name(c) && Name(d) && Name(e)
    ensures PathJoin(h, [a, b, c, d, e]) == h + "/" + a + "/" + b + "/" + c + "/" + d + "/" + e
  {
    PathJoinSnoc(h, [], a);
    JoinTwoNames(h, a);
    var p1 := h + "/" + a;
    assert [a] == [] + [a];
    PathJoinSnoc(h, [a], b);
    JoinTwoNames(p1, b);
    var p2 := p1 + "/" + b;
    assert [a, b] == [a] + [b];
    PathJoinSnoc(h, [a, b], c);
    JoinTwoNames(p2, c);
    var p3 := p2 + "/" + c;
    assert [a, b, c] == [a, b] + [c];
    PathJoinSnoc(h, [a, b, c], d);
    JoinTwoNames(p3, d);
    var p4 := p3 + "/" + d;
    assert [a, b, c, d] == [a, b, c] + [d];
    PathJoinSnoc(h, [a, b, c, d], e);
    JoinTwoNames(p4, e);
    assert [a, b, c, d, e] == [a, b, c, d] + [e];
  }

  /** With a plain directory and plain components, `os.path.join` is the
      components glued with single separators. */
  lemma {:induction false} PathJoinOfNames(head: string, tail: seq<string>)
    requires Dir(head)
    requires forall i :: 0 <= i < |tail| ==> Name(tail[i])
    ensures PathJoin(head, tail) == Join("/", [head] + tail)
    ensures Dir(PathJoin(head, tail))
  {
    if |tail| > 0 {
      var init, last := tail[..|tail| - 1], tail[|tail| - 1];
      PathJoinOfNames(head, init);
      assert [head] + tail == ([head] + init) + [last];
      JoinSnoc("/", [head] + init, last);
      JoinTwoNames(PathJoin(head, init), last);
    }
  }

  /** The final component of a path is determined by the path: two joins that
      differ only in a relative final component give different paths. */
  lemma LastComponentInjective(head: string, tail: seq<string>, x: string, y: string)
    requires |x| > 0 && x[0] != '/'
    requires |y| > 0 && y[0] != '/'
    requires PathJoin(head, tail + [x]) == PathJoin(head, tail + [y])
    ensures x == y
  {
    PathJoinSnoc(head, tail, x);
    PathJoinSnoc(head, tail, y);
    var p := PathJoin(head, tail);
    var q := if |p| == 0 || p[|p| - 1] == '/' then p else p + "/";
    assert JoinTwo(p, x) == q + x && JoinTwo(p, y) == q + y;
    assert x == (q + x)[|q|..];
  }

  /** A common suffix can be cancelled. */
  lemma SuffixCancels(x: string, y: string, s: string)
    requires x + s == y + s
    ensures x == y
  {
    assert x == (x + s)[..|x|];
    assert y == (y + s)[..|y|];
  }

  /** A common prefix can be cancelled. */
  lemma PrefixCancels(p: string, x: string, y: string)
    requires p + x == p + y
    ensures x == y
  {
    assert x == (p + x)[|p|..];
    assert y == (p + y)[|p|..];
  }

  // ---------------------------------------------------------------------------
  // File names of the simulation outputs
  // ---------------------------------------------------------------------------

  /** The prefix-scenario-model fragment is one path component. */
  lemma FragmentName(prefix: string, scenario: string, model: string)
    requires Name(prefix) && Name(scenario) && Name(model)
    ensures Join("_", [prefix, scenario, model]) == prefix + "_" + scenario + "_" + model
    ensures Name(Join("_", [prefix, scenario, model]))
  {
    Join3("_", prefix, scenario, model);
  }

  /** The name of a total-area-burned file (one option, region or zone of one
      run) is one path component. */
  lemma CsvName(tag: string, run: string, date: string)
    requires Name(tag) && Name(run) && Name(date)
    ensures Join("_", ["alfresco_totalareaburned", tag, run, date]) + ".csv"
            == "alfresco_totalareaburned" + "_" + tag + "_" + run + "_" + date + ".csv"
    ensures Name(Join("_", ["alfresco_totalareaburned", tag, run, date]) + ".csv")
  {
    Join4("_", "alfresco_totalareaburned", tag, run, date);
  }

  /** Total-area-burned files in one directory that differ in the label have
      different paths. */
  lemma FileNameSeparates(dataDir: string, tail: seq<string>, p: string, d: string, o1: string, o2: string)
    requires PathJoin(dataDir, tail + [Join("_", ["alfresco_totalareaburned", o1, p, d]) + ".csv"])
          == PathJoin(dataDir, tail + [Join("_", ["alfresco_totalareaburned", o2, p, d]) + ".csv"])
    ensures o1 == o2
  {
    var stem := "alfresco_totalareaburned";
    Join4("_", stem, o1, p, d);
    Join4("_", stem, o2, p, d);
    var f1 := stem + "_" + o1 + "_" + p + "_" + d + ".csv";
    var f2 := stem + "_" + o2 + "_" + p + "_" + d + ".csv";
    assert f1[0] == 'a' && f2[0] == 'a';
    LastComponentInjective(dataDir, tail, f1, f2);
    SuffixCancels(stem + "_" + o1 + "_" + p + "_" + d, stem + "_" + o2 + "_" + p + "_" + d, ".csv");
    SuffixCancels(stem + "_" + o1 + "_" + p + "_", stem + "_" + o2 + "_" + p + "_", d);
    SuffixCancels(stem + "_" + o1 + "_" + p, stem + "_" + o2 + "_" + p, "_");
    SuffixCancels(stem + "_" + o1 + "_", stem + "_" + o2 + "_", p);
    SuffixCancels(stem + "_" + o1, stem + "_" + o2, "_");
    PrefixCancels(stem + "_", o1, o2);
  }

  /** The name of a vegetation-count file (one region and forest type of one
      run) is one path component. */
  lemma VegCsvName(region: string, forest: string, run: string, date: string)
    requires Name(region) && Name(forest) && Name(run) && Name(date)
    ensures Join("_", ["alfresco_vegcounts", region, forest, run, date]) + ".csv"
            == "alfresco_vegcounts" + "_" + region + "_" + forest + "_" + run + "_" + date + ".csv"
    ensures Name(Join("_", ["alfresco_vegcounts", region, forest, run, date]) + ".csv")
  {
    Join5("_", "alfresco_vegcounts", region, forest, run, date);
  }

  /** Vegetation-count files in one directory that differ in the forest type
      have different paths. */
  lemma VegFileSeparates(dataDir: string, tail: seq<string>, region: string, run: string, date: string,
                         f1: string, f2: string)
    requires PathJoin(dataDir, tail + [Join("_", ["alfresco_vegcounts", region, f1, run, date]) + ".csv"])
          == PathJoin(dataDir, tail + [Join("_", ["alfresco_vegcounts", region, f2, run, date]) + ".csv"])
    ensures f1 == f2
  {
    var head := "alfresco_vegcounts" + "_" + region + "_";
    var rest := "_" + run + "_" + date + ".csv";
    Join5("_", "alfresco_vegcounts", region, f1, run, date);
    Join5("_", "alfresco_vegcounts", region, f2, run, date);
    var n1 := "alfresco_vegcounts" + "_" + region + "_" + f1 + "_" + run + "_" + date + ".csv";
    var n2 := "alfresco_vegcounts" + "_" + region + "_" + f2 + "_" + run + "_" + date + ".csv";
    assert n1[0] == 'a' && n2[0] == 'a';
    LastComponentInjective(dataDir, tail, n1, n2);
    assert n1 == head + f1 + rest && n2 == head + f2 + rest;
    SuffixCancels(head + f1, head + f2, rest);
    PrefixCancels(head, f1, f2);
  }
}
