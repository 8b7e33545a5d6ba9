/** The text of the two index pages: writing them, splitting them into lines and
    finding links again with the two patterns the index script searches for. */
module WheelText {
  import opened Sums

  predicate StartsWith(s: string, p: string) { |p| <= |s| && s[..|p|] == p }

  predicate EndsWith(s: string, p: string) { |p| <= |s| && s[|s| - |p|..] == p }

  predicate OneLine(s: string) { '\n' !in s }

  // ---- Lines ----

  function Split(s: string): (lines: seq<string>)
    ensures lines != []
  {
    if s == "" then [""]
    else if s[0] == '\n' then [""] + Split(s[1..])
    else
      var rest := Split(s[1..]);
      [[s[0]] + rest[0]] + rest[1..]
  }

  function Join(lines: seq<string>): string {
    if lines == [] then ""
    else if |lines| == 1 then lines[0]
    else lines[0] + "\n" + Join(lines[1..])
  }

  lemma {:induction false} SplitLine(line: string, rest: string)
    requires OneLine(line)
    ensures Split(line + "\n" + rest) == [line] + Split(rest)
  {
    var s := line + "\n" + rest;
    if line == "" {
      assert s == "\n" + rest && s[1..] == rest;
    } else {
      SplitLine(line[1..], rest);
      assert s[1..] == line[1..] + "\n" + rest;
      assert [line[0]] + line[1..] == line;
    }
  }

  lemma {:induction false} SplitJoin(lines: seq<string>)
    requires lines != [] && forall i :: 0 <= i < |lines| ==> OneLine(lines[i])
    ensures Split(Join(lines) + "\n") == lines + [""]
  {
    assert Split("") == [""];
    if |lines| == 1 {
      SplitLine(lines[0], "");
      assert lines[0] + "\n" + "" == lines[0] + "\n" && [lines[0]] == lines;
    } else {
      SplitJoin(lines[1..]);
      SplitLine(lines[0], Join(lines[1..]) + "\n");
      assert Join(lines) + "\n" == lines[0] + "\n" + (Join(lines[1..]) + "\n");
      assert [lines[0]] + (lines[1..] + [""]) == lines + [""];
    }
  }

  lemma {:induction false} SplitOneLine(s: string)
    ensures forall i :: 0 <= i < |Split(s)| ==> OneLine(Split(s)[i])
  {
    if s != "" { SplitOneLine(s[1..]); }
  }

  // ---- Link lines ----

  const LINK := "<a href="

  function LinkLines(lines: seq<string>): (r: seq<string>) {
    if lines == [] then []
    else (if StartsWith(lines[0], LINK) then [lines[0]] else []) + LinkLines(lines[1..])
  }

  lemma {:induction false} LinkLinesAll(lines: seq<string>)
    requires forall i :: 0 <= i < |lines| ==> StartsWith(lines[i], LINK)
    ensures LinkLines(lines) == lines
  {
    if lines != [] {
      LinkLinesAll(lines[1..]);
      assert [lines[0]] + lines[1..] == lines;
    }
  }

  /** Exactly the lines that start with an anchor are read. */
  lemma {:induction false} LinkLinesExact(lines: seq<string>, x: string)
    ensures multiset(LinkLines(lines))[x] == if StartsWith(x, "<a href=") then multiset(lines)[x] else 0
  {
    hide StartsWith;
    if lines != [] {
      LinkLinesExact(lines[1..], x);
      assert lines == [lines[0]] + lines[1..];
    }
  }

  lemma {:induction false} LinkLinesConcat(a: seq<string>, b: seq<string>)
    ensures LinkLines(a + b) == LinkLines(a) + LinkLines(b)
  {
    hide StartsWith;
    if a == [] {
      assert a + b == b;
    } else {
      LinkLinesConcat(a[1..], b);
      assert (a + b)[1..] == a[1..] + b && (a + b)[0] == a[0];
      var first := if StartsWith(a[0], LINK) then [a[0]] else [];
      assert first + (LinkLines(a[1..]) + LinkLines(b)) == first + LinkLines(a[1..]) + LinkLines(b);
    }
  }

  lemma {:induction false} LinkLinesKeep(lines: seq<string>)
    requires forall i :: 0 <= i < |lines| ==> OneLine(lines[i])
    ensures forall i :: 0 <= i < |LinkLines(lines)| ==> IsLink(LinkLines(lines)[i])
  {
    if lines != [] { LinkLinesKeep(lines[1..]); }
  }

  /** A line that is read back as a link. */
  predicate IsLink(s: string) { StartsWith(s, LINK) && OneLine(s) }

  /** All links of a package page. */
  function ReadLinks(content: string): seq<string> { LinkLines(Split(content)) }

  function Heading(cuda: string): string { "<h1>SGLang Nightly Wheels (" + cuda + ")</h1>" }

  function PackagePage(cuda: string, links: seq<string>): string {
    "<!DOCTYPE html>" + "\n" + (Heading(cuda) + "\n" + (Join(links) + "\n"))
  }

  lemma BodyLinks(links: seq<string>)
    requires forall i :: 0 <= i < |links| ==> IsLink(links[i])
    ensures LinkLines(Split(Join(links) + "\n")) == links
  {
    BlankLines();
    if links == [] {
      assert Join(links) + "\n" == "\n";
    } else {
      hide Split, LinkLines, Join;
      SplitJoin(links);
      LinkLinesConcat(links, [""]);
      LinkLinesAll(links);
      assert links + [] == links;
    }
  }

  lemma BlankLines()
    ensures LinkLines(Split("\n")) == [] && LinkLines([""]) == []
  {
    var one, two := [""], ["", ""];
    assert one[1..] == [] && two[1..] == one;
    assert "\n"[1..] == "" && Split("") == one && Split("\n") == two;
    assert LinkLines(one) == [];
  }

  /** A written page gives back exactly the links written to it. */
  lemma PackageRoundTrip(cuda: string, links: seq<string>)
    requires OneLine(cuda) && forall i :: 0 <= i < |links| ==> IsLink(links[i])
    ensures ReadLinks(PackagePage(cuda, links)) == links
  {
    hide Split, LinkLines, Join, IsLink;
    var body := Join(links) + "\n";
    HeadHasNoLinks(cuda);
    SplitLine("<!DOCTYPE html>", Heading(cuda) + "\n" + body);
    SplitLine(Heading(cuda), body);
    var head := ["<!DOCTYPE html>"] + [Heading(cuda)];
    assert Split(PackagePage(cuda, links)) == head + Split(body);
    LinkLinesConcat(head, Split(body));
    BodyLinks(links);
    assert [] + links == links;
  }

  lemma HeadHasNoLinks(cuda: string)
    ensures LinkLines(["<!DOCTYPE html>"] + [Heading(cuda)]) == []
  {
    var a, b := "<!DOCTYPE html>", Heading(cuda);
    assert a[1] == '!' && b[1] == 'h' && LINK[1] == 'a';
    assert !StartsWith(a, LINK) by { assert a[..|LINK|][1] == '!'; }
    assert !StartsWith(b, LINK) by { assert |b| >= |LINK| && b[..|LINK|][1] == 'h'; }
    var one, two := [b], [a] + [b];
    assert two[1..] == one && one[1..] == [];
    assert LinkLines([b]) == [];
  }

  /** Every link read from a page can be written and read again. */
  lemma ReadAreLinks(content: string)
    ensures forall i :: 0 <= i < |ReadLinks(content)| ==> IsLink(ReadLinks(content)[i])
  {
    SplitOneLine(content);
    LinkLinesKeep(Split(content));
  }

  // ---- The file name inside a link ----

  /** The first `c` at or after `from`, or the end of the text. */
  function IndexFrom(s: string, c: char, from: nat): (k: nat)
    requires from <= |s|
    ensures from <= k <= |s| && (k < |s| ==> s[k] == c)
    ensures forall i :: from <= i < k ==> s[i] != c
    decreases |s| - from
  {
    if from == |s| || s[from] == c then from else IndexFrom(s, c, from + 1)
  }

  /** What the pattern `>([^<]+\.whl)</a>` captures when it starts at `p`: the run
      of characters up to the next `<`. */
  function NameAt(s: string, p: nat): Option<string>
    requires p < |s|
  {
    var q := IndexFrom(s, '<', p + 1);
    var run := s[p + 1..q];
    if s[p] == '>' && |run| >= 5 && EndsWith(run, ".whl") && StartsWith(s[q..], "</a>") then Some(run) else None
  }

  /** The leftmost match at or after `p`. */
  function SearchName(s: string, p: nat): Option<string>
    requires p <= |s|
    decreases |s| - p
  {
    if p == |s| then None
    else if NameAt(s, p).Some? then NameAt(s, p)
    else SearchName(s, p + 1)
  }

  function FileName(s: string): Option<string> { SearchName(s, 0) }

  lemma {:induction false} SearchSkips(s: string, p: nat, q: nat)
    requires p <= q <= |s| && forall i :: p <= i < q ==> s[i] != '>'
    ensures SearchName(s, p) == SearchName(s, q)
    decreases q - p
  {
    if p < q { SearchSkips(s, p + 1, q); }
  }

  function LinkTo(url: string, name: string): string {
    LINK + "\"" + url + "\">" + name + "</a><br>"
  }

  /** A name the pattern can find. */
  predicate WheelName(name: string) {
    |name| >= 5 && EndsWith(name, ".whl") && '<' !in name && '>' !in name && OneLine(name)
  }

  lemma NameBetween(head: string, name: string, tail: string)
    requires WheelName(name) && '>' !in head && StartsWith(tail, "</a>")
    ensures FileName(head + ">" + name + tail) == Some(name)
  {
    var s, p := head + ">" + name + tail, |head|;
    assert forall i :: 0 <= i < p ==> s[i] == head[i];
    SearchSkips(s, 0, p);
    var q := p + 1 + |name|;
    assert forall i :: p + 1 <= i < q ==> s[i] == name[i - p - 1];
    assert s[q..] == tail;
    assert s[q] == tail[0] == "</a>"[0];
    assert s[p + 1..q] == name;
  }

  /** A generated link gives back the file name it was made for. */
  lemma LinkHasName(url: string, name: string)
    requires WheelName(name) && '>' !in url
    ensures FileName(LinkTo(url, name)) == Some(name)
  {
    hide FileName, WheelName;
    var head, tail := LINK + "\"" + url + "\"", "</a><br>";
    assert tail[..4] == "</a>";
    NameBetween(head, name, tail);
    assert LinkTo(url, name) == head + ">" + name + tail;
  }

  lemma LinkIsLink(url: string, name: string)
    requires OneLine(url) && OneLine(name)
    ensures IsLink(LinkTo(url, name))
  {
    var s := LinkTo(url, name);
    assert s[..|LINK|] == LINK;
  }

  // ---- Where a link points ----

  /** The text between the first pair of quotes. */
  function Href(s: string): (h: Option<string>)
  {
    var p := IndexFrom(s, '"', 0);
    if p == |s| then None
    else
      var q := IndexFrom(s, '"', p + 1);
      if q == |s| then None else Some(s[p + 1..q])
  }

  /** What stands before and after the first `c`. */
  function Cut(s: string, c: char): (string, string) {
    var k := IndexFrom(s, c, 0);
    (s[..k], if k < |s| then s[k + 1..] else "")
  }

  /** What stands before and after the last `c`. */
  function CutLast(s: string, c: char): (string, string)
    decreases |s|
  {
    if s == "" then ("", "")
    else
      var last := |s| - 1;
      if s[last] == c then (s[..last], "")
      else
        var rest := CutLast(s[..last], c);
        (rest.0, rest.1 + [s[last]])
  }

  lemma HrefFound(url: string, name: string)
    requires '"' !in url
    ensures Href(LinkTo(url, name)) == Some(url)
  {
    var s, p := LinkTo(url, name), |LINK|;
    assert forall i :: 0 <= i < p ==> s[i] == LINK[i] && LINK[i] != '"';
    assert s[p] == '"';
    var q := p + 1 + |url|;
    assert forall i :: p + 1 <= i < q ==> s[i] == url[i - p - 1];
    assert s[q] == '"' && s[p + 1..q] == url;
  }

  lemma CutFound(a: string, c: char, b: string)
    requires c !in a
    ensures Cut(a + [c] + b, c) == (a, b)
  {
    var s := a + [c] + b;
    assert forall i :: 0 <= i < |a| ==> s[i] == a[i];
    assert s[|a|] == c && s[..|a|] == a && s[|a| + 1..] == b;
  }

  lemma {:induction false} CutLastFound(a: string, c: char, b: string)
    requires c !in b
    ensures CutLast(a + [c] + b, c) == (a, b)
  {
    var s := a + [c] + b;
    if b == "" {
      assert s[..|s| - 1] == a;
    } else {
      var shorter := b[..|b| - 1];
      CutLastFound(a, c, shorter);
      assert s[..|s| - 1] == a + [c] + shorter && s[|s| - 1] == b[|b| - 1];
      assert shorter + [b[|b| - 1]] == b;
    }
  }

  // ---- Package names on the root page ----

  const OPEN := "<a href=\""

  /** A match of `<a href="([^"]+)/">` at the start of `s`: the captured name and
      the length of the match. */
  function PackageHead(s: string): (r: Option<(string, nat)>)
    ensures r.Some? ==> 1 <= r.value.1 <= |s| && r.value.0 != "" && '"' !in r.value.0
  {
    if !StartsWith(s, OPEN) then None
    else
      var q := IndexFrom(s, '"', |OPEN|);
      var run := s[|OPEN|..q];
      if q + 1 < |s| && s[q + 1] == '>' && |run| >= 2 && run[|run| - 1] == '/' then
        Some((run[..|run| - 1], q + 2))
      else None
  }

  /** All matches, left to right and without overlap. */
  function Packages(s: string): (r: seq<string>)
    ensures forall i :: 0 <= i < |r| ==> r[i] != "" && '"' !in r[i]
    decreases |s|
  {
    if s == "" then []
    else match PackageHead(s)
      case None => Packages(s[1..])
      case Some((name, end)) => [name] + Packages(s[end..])
  }

  function Row(name: string): string { OPEN + name + "/\">" + name + "</a>\n" }

  function Rows(names: seq<string>): string {
    if names == [] then "" else Row(names[0]) + Rows(names[1..])
  }

  function RootPage(names: seq<string>): string { "<!DOCTYPE html>\n" + Rows(names) }

  /** Text without quotes before the next row holds no match. */
  lemma {:induction false} SkipText(t: string, rest: string)
    requires '"' !in t && (rest == "" || StartsWith(rest, OPEN))
    ensures Packages(t + rest) == Packages(rest)
  {
    if t == "" {
      assert t + rest == rest;
    } else {
      var s := t + rest;
      assert s[1..] == t[1..] + rest;
      SkipText(t[1..], rest);
      assert !StartsWith(s, OPEN) by { NoOpenInside(t, rest); }
    }
  }

  lemma NoOpenInside(t: string, rest: string)
    requires t != "" && '"' !in t && (rest == "" || StartsWith(rest, OPEN))
    ensures !StartsWith(t + rest, OPEN)
  {
    var s, at := t + rest, |OPEN| - 1;
    assert OPEN[at] == '"' && forall i :: 0 <= i < at ==> OPEN[i] != '"';
    if |s| >= |OPEN| {
      assert s[..|OPEN|][at] == s[at];
      if at < |t| {
        assert s[at] == t[at];
      } else {
        assert s[at] == rest[at - |t|] && rest[..|OPEN|][at - |t|] == rest[at - |t|];
      }
    }
  }

  lemma HeadFound(name: string, after: string)
    requires name != "" && '"' !in name
    ensures PackageHead(OPEN + name + "/\">" + after) == Some((name, |OPEN| + |name| + 3))
    ensures (OPEN + name + "/\">" + after)[|OPEN| + |name| + 3..] == after
  {
    var s, k, run := OPEN + name + "/\">" + after, |OPEN|, name + "/";
    assert s == OPEN + run + "\">" + after;
    assert s[..k] == OPEN;
    var q := k + |run|;
    assert forall i :: k <= i < q ==> s[i] == run[i - k];
    assert s[q] == '"' && s[q + 1] == '>';
    assert s[k..q] == run && run[..|run| - 1] == name;
  }

  lemma RowFound(name: string, rest: string)
    requires name != "" && '"' !in name
    ensures Packages(Row(name) + rest) == [name] + Packages(name + "</a>\n" + rest)
  {
    hide PackageHead;
    var after := name + "</a>\n" + rest;
    HeadFound(name, after);
    assert Row(name) + rest == OPEN + name + "/\">" + after;
  }

  lemma RowsOpen(names: seq<string>)
    ensures Rows(names) == "" || StartsWith(Rows(names), OPEN)
  {
    if names != [] {
      assert Rows(names)[..|OPEN|] == OPEN;
    }
  }

  lemma NoPackages()
    ensures Packages("") == []
  {
  }

  lemma RowEnds(name: string)
    requires '"' !in name
    ensures '"' !in name + "</a>\n"
  {
  }

  lemma {:induction false} RowsFound(names: seq<string>)
    requires forall i :: 0 <= i < |names| ==> names[i] != "" && '"' !in names[i]
    ensures Packages(Rows(names)) == names
  {
    hide Packages, Row;
    if names == [] {
      NoPackages();
    } else {
      var rest := Rows(names[1..]);
      RowsFound(names[1..]);
      RowFound(names[0], rest);
      RowsOpen(names[1..]);
      RowEnds(names[0]);
      SkipText(names[0] + "</a>\n", rest);
      assert [names[0]] + names[1..] == names;
    }
  }

  /** A written root page gives back exactly the names written to it. */
  lemma RootRoundTrip(names: seq<string>)
    requires forall i :: 0 <= i < |names| ==> names[i] != "" && '"' !in names[i]
    ensures Packages(RootPage(names)) == names
  {
    hide Packages, Rows;
    RowsFound(names);
    RowsOpen(names);
    SkipText("<!DOCTYPE html>\n", Rows(names));
  }

  /** Line by line: the document type, the heading with the version, the links. */
  lemma PackageLines(cuda: string, links: seq<string>)
    requires OneLine(cuda) && links != [] && forall i :: 0 <= i < |links| ==> IsLink(links[i])
    ensures Split(PackagePage(cuda, links)) ==
      ["<!DOCTYPE html>"] + ["<h1>SGLang Nightly Wheels (" + cuda + ")</h1>"] + links + [""]
  {
    hide Split, Join;
    SplitLine("<!DOCTYPE html>", Heading(cuda) + "\n" + (Join(links) + "\n"));
    SplitLine(Heading(cuda), Join(links) + "\n");
    SplitJoin(links);
  }

  function RowLine(name: string): string { "<a href=\"" + name + "/\">" + name + "</a>" }

  lemma {:induction false} RowLines(names: seq<string>)
    requires forall i :: 0 <= i < |names| ==> OneLine(names[i])
    ensures |Split(Rows(names))| == |names| + 1
    ensures forall i :: 0 <= i < |names| ==> Split(Rows(names))[i] == RowLine(names[i])
  {
    hide Split;
    if names == [] {
      EmptySplit();
    } else {
      var rest := Rows(names[1..]);
      RowLines(names[1..]);
      assert OneLine(RowLine(names[0]));
      assert Row(names[0]) == RowLine(names[0]) + "\n";
      SplitLine(RowLine(names[0]), rest);
    }
  }

  lemma EmptySplit()
    ensures Split("") == [""]
  {
  }

  /** Line by line: the document type, then one link per package, whose text is
      the package's name and whose target its directory. */
  lemma RootLines(names: seq<string>)
    requires forall i :: 0 <= i < |names| ==> OneLine(names[i])
    ensures var lines := Split(RootPage(names));
            && |lines| == |names| + 2 && lines[0] == "<!DOCTYPE html>"
            && forall i :: 0 <= i < |names| ==> lines[i + 1] == RowLine(names[i])
  {
    hide Split, Rows, RowLine;
    RowLines(names);
    SplitLine("<!DOCTYPE html>", Rows(names));
    assert RootPage(names) == "<!DOCTYPE html>" + "\n" + Rows(names);
  }
}
