/** The nightly wheel index: every run reads the published page, puts its own
    links first, drops the links whose file name has been seen, and writes the
    page again. */
module WheelIndex {
  import opened Sums
  import opened WheelText

  /** One wheel of a run and the hash of its file. */
  datatype Wheel = Wheel(name: string, sha: string)

  /** A run: its release tag and the wheels found, in sorted order. */
  datatype Release = Release(tag: string, wheels: seq<Wheel>)

  const BASE := "https://github.com" + "/sgl-project/whl" + "/releases/download"

  function UrlOf(tag: string, w: Wheel): string {
    BASE + "/" + tag + "/" + w.name + "#sha256=" + w.sha
  }

  function LinkOf(tag: string, w: Wheel): string { LinkTo(UrlOf(tag, w), w.name) }

  function NewLinks(r: Release): (links: seq<string>)
    ensures |links| == |r.wheels|
    ensures forall i :: 0 <= i < |links| ==> links[i] == LinkOf(r.tag, r.wheels[i])
  {
    seq(|r.wheels|, i requires 0 <= i < |r.wheels| => LinkOf(r.tag, r.wheels[i]))
  }

  predicate Plain(s: string) { '<' !in s && '>' !in s && OneLine(s) }

  /** Tags, hashes and file names without markup, no file name twice. */
  predicate ValidRelease(r: Release) {
    && Plain(r.tag)
    && (forall i :: 0 <= i < |r.wheels| ==> WheelName(r.wheels[i].name) && Plain(r.wheels[i].sha))
    && (forall i, j :: 0 <= i < j < |r.wheels| ==> r.wheels[i].name != r.wheels[j].name)
  }

  lemma PlainConcat(a: string, b: string)
    requires Plain(a) && Plain(b)
    ensures Plain(a + b)
  {
  }

  lemma PlainName(name: string)
    requires WheelName(name)
    ensures Plain(name)
  {
  }

  lemma HostPlain()
    ensures Plain("https://github.com")
  {
  }

  lemma PathPlain()
    ensures Plain("/sgl-project/whl") && Plain("/")
  {
  }

  lemma DownloadPlain()
    ensures Plain("/releases/download") && Plain("#sha256=")
  {
  }

  lemma BasePlain()
    ensures Plain(BASE) && Plain("/") && Plain("#sha256=")
  {
    hide Plain;
    HostPlain();
    PathPlain();
    DownloadPlain();
    PlainConcat("https://github.com", "/sgl-project/whl");
    PlainConcat("https://github.com" + "/sgl-project/whl", "/releases/download");
  }

  lemma NewLinksOk(r: Release)
    requires ValidRelease(r)
    ensures forall i :: 0 <= i < |r.wheels| ==>
      FileName(NewLinks(r)[i]) == Some(r.wheels[i].name) && IsLink(NewLinks(r)[i])
  {
    forall i | 0 <= i < |r.wheels|
      ensures FileName(NewLinks(r)[i]) == Some(r.wheels[i].name) && IsLink(NewLinks(r)[i])
    {
      var w := r.wheels[i];
      UrlPlain(r.tag, w);
      LinkHasName(UrlOf(r.tag, w), w.name);
      LinkIsLink(UrlOf(r.tag, w), w.name);
    }
  }

  lemma UrlPlain(tag: string, w: Wheel)
    requires Plain(tag) && WheelName(w.name) && Plain(w.sha)
    ensures Plain(UrlOf(tag, w))
  {
    hide Plain, WheelName;
    PlainName(w.name);
    BasePlain();
    PlainConcat(BASE, "/");
    PlainConcat(BASE + "/", tag);
    PlainConcat(BASE + "/" + tag, "/");
    PlainConcat(BASE + "/" + tag + "/", w.name);
    PlainConcat(BASE + "/" + tag + "/" + w.name, "#sha256=");
    PlainConcat(BASE + "/" + tag + "/" + w.name + "#sha256=", w.sha);
  }

  /** Where a link for wheel `w` of release `tag` must point: the fragment is the
      hash, the last part of the path the file's name, the part before it the tag,
      and the rest the download address; the text shown is the file's name. */
  predicate PointsTo(link: string, tag: string, w: Wheel) {
    var href := Href(link);
    href.Some? && StartsWith(link, "<a href=\"") && EndsWith(link, ">" + w.name + "</a><br>") &&
    var (path, fragment) := Cut(href.value, '#');
    var (directory, file) := CutLast(path, '/');
    && fragment == "sha256=" + w.sha && file == w.name
    && CutLast(directory, '/') == ("https://github.com/sgl-project/whl/releases/download", tag)
  }

  lemma BaseText()
    ensures BASE == "https://github.com/sgl-project/whl/releases/download"
  {
  }

  predicate Quiet(s: string) { '#' !in s && '"' !in s }

  lemma HostQuiet()
    ensures Quiet("https://github.com")
  {
  }

  lemma PathQuiet()
    ensures Quiet("/sgl-project/whl")
  {
  }

  lemma DownloadQuiet()
    ensures Quiet("/releases/download")
  {
  }

  lemma QuietConcat(a: string, b: string)
    requires Quiet(a) && Quiet(b)
    ensures Quiet(a + b)
  {
  }

  lemma BaseParts()
    ensures '#' !in BASE && '"' !in BASE
  {
    assert Quiet(BASE) by {
      hide Quiet;
      HostQuiet();
      PathQuiet();
      DownloadQuiet();
      QuietConcat("https://github.com", "/sgl-project/whl");
      QuietConcat("https://github.com" + "/sgl-project/whl", "/releases/download");
    }
  }

  /** Tag and file name are single parts of an address, and nothing is a quote. */
  predicate Addressable(tag: string, w: Wheel) {
    && '/' !in tag && '#' !in tag && '"' !in tag
    && '/' !in w.name && '#' !in w.name && '"' !in w.name && '"' !in w.sha
  }

  lemma QuotelessUrl(tag: string, w: Wheel)
    requires Addressable(tag, w)
    ensures '"' !in UrlOf(tag, w)
  {
    BaseParts();
    var a, b := BASE + "/" + tag + "/" + w.name, "#sha256=" + w.sha;
    assert '"' !in a && '"' !in b;
    assert UrlOf(tag, w) == a + b;
  }

  lemma LinkStarts(url: string, name: string)
    ensures StartsWith(LinkTo(url, name), "<a href=\"")
  {
    var head := LINK + "\"";
    assert head == "<a href=\"";
    assert LinkTo(url, name)[..|head|] == head;
  }

  lemma LinkEnds(url: string, name: string)
    ensures EndsWith(LinkTo(url, name), ">" + name + "</a><br>")
  {
    var head := LINK + "\"" + url + "\"";
    assert LinkTo(url, name) == head + (">" + name + "</a><br>");
  }

  /** A generated link points to its wheel in its release, with its hash. */
  lemma LinkPoints(tag: string, w: Wheel)
    requires Addressable(tag, w)
    ensures PointsTo(LinkOf(tag, w), tag, w)
  {
    hide Href, Cut, CutLast, LinkTo;
    QuotelessUrl(tag, w);
    LinkEnds(UrlOf(tag, w), w.name);
    LinkStarts(UrlOf(tag, w), w.name);
    HrefFound(UrlOf(tag, w), w.name);
    BaseParts();
    BaseText();
    var directory := BASE + ['/'] + tag;
    var path := directory + ['/'] + w.name;
    assert UrlOf(tag, w) == path + ['#'] + ("sha256=" + w.sha);
    assert '#' !in path;
    CutFound(path, '#', "sha256=" + w.sha);
    CutLastFound(directory, '/', w.name);
    CutLastFound(BASE, '/', tag);
  }

  // ---- Dropping duplicates ----

  /** Keep each link whose name is found and not in `seen` or met before. */
  function Dedup(links: seq<string>, seen: set<string>): seq<string> {
    if links == [] then []
    else
      var name := FileName(links[0]);
      if name.None? || name.value in seen then Dedup(links[1..], seen)
      else [links[0]] + Dedup(links[1..], seen + {name.value})
  }

  function Names(links: seq<string>): set<string> {
    if links == [] then {}
    else Names(links[1..]) + if FileName(links[0]).Some? then {FileName(links[0]).value} else {}
  }

  method DropDuplicates(all: seq<string>) returns (unique: seq<string>)
    ensures unique == Dedup(all, {})
  {
    hide FileName;
    var seen: set<string> := {};
    unique := [];
    var i := 0;
    while i < |all|
      invariant i <= |all| && unique + Dedup(all[i..], seen) == Dedup(all, {})
    {
      var name := FileName(all[i]);
      assert all[i..][1..] == all[i + 1..];
      if name.Some? {
        if name.value !in seen {
          seen := seen + {name.value};
          assert unique + [all[i]] + Dedup(all[i + 1..], seen) == unique + ([all[i]] + Dedup(all[i + 1..], seen));
          unique := unique + [all[i]];
        }
      }
      i := i + 1;
    }
  }

  lemma {:induction false} DedupConcat(a: seq<string>, b: seq<string>, seen: set<string>)
    ensures Dedup(a + b, seen) == Dedup(a, seen) + Dedup(b, seen + Names(a))
  {
    hide FileName;
    if a == [] {
      assert a + b == b && seen + {} == seen;
    } else {
      var name := FileName(a[0]);
      assert (a + b)[1..] == a[1..] + b;
      if name.None? || name.value in seen {
        DedupConcat(a[1..], b, seen);
        assert seen + Names(a[1..]) == seen + Names(a);
      } else {
        DedupConcat(a[1..], b, seen + {name.value});
        assert seen + {name.value} + Names(a[1..]) == seen + Names(a);
      }
    }
  }

  /** Dropping duplicates early makes no difference later. */
  lemma {:induction false} DedupTwice(links: seq<string>, early: set<string>, seen: set<string>)
    requires early <= seen
    ensures Dedup(Dedup(links, early), seen) == Dedup(links, seen)
  {
    hide FileName;
    if links != [] {
      var name := FileName(links[0]);
      if name.None? || name.value in early {
        DedupTwice(links[1..], early, seen);
      } else {
        var rest := Dedup(links[1..], early + {name.value});
        assert ([links[0]] + rest)[1..] == rest;
        DedupTwice(links[1..], early + {name.value}, seen + {name.value});
        if name.value in seen { assert seen + {name.value} == seen; }
      }
    }
  }

  /** What is kept: a link is kept exactly when its name is found, is not in
      `seen`, and is the name of no earlier link. */
  lemma {:induction false} DedupExact(links: seq<string>, seen: set<string>, x: string)
    ensures x in Dedup(links, seen) <==>
      exists i :: 0 <= i < |links| && links[i] == x && FirstOfName(links, seen, i)
  {
    hide FileName;
    if links != [] {
      var name, rest := FileName(links[0]), links[1..];
      var seen' := if name.None? then seen else seen + {name.value};
      DedupExact(rest, if name.None? || name.value in seen then seen else seen', x);
      FirstShift(links, seen);
    }
  }

  ghost predicate FirstOfName(links: seq<string>, seen: set<string>, i: nat)
    requires i < |links|
  {
    var name := FileName(links[i]);
    name.Some? && name.value !in seen && forall j :: 0 <= j < i ==> FileName(links[j]) != name
  }

  lemma FirstShift(links: seq<string>, seen: set<string>)
    requires links != []
    ensures var name := FileName(links[0]);
            var seen' := if name.None? || name.value in seen then seen else seen + {name.value};
            forall i: nat :: i < |links[1..]| ==>
              (FirstOfName(links[1..], seen', i) <==> FirstOfName(links, seen, i + 1))
  {
    hide FileName;
    var name, rest := FileName(links[0]), links[1..];
    var seen' := if name.None? || name.value in seen then seen else seen + {name.value};
    forall i: nat | i < |rest| ensures FirstOfName(rest, seen', i) <==> FirstOfName(links, seen, i + 1) {
      assert rest[i] == links[i + 1];
      assert forall j :: 0 <= j < i ==> rest[j] == links[j + 1];
      assert forall j :: 1 <= j < i + 1 ==> links[j] == rest[j - 1];
    }
  }

  /** No file name is linked twice. */
  ghost predicate NamedOnce(d: seq<string>, seen: set<string>) {
    && (forall i :: 0 <= i < |d| ==> FileName(d[i]).Some? && FileName(d[i]).value !in seen)
    && (forall i, j :: 0 <= i < j < |d| ==> FileName(d[i]) != FileName(d[j]))
  }

  lemma {:induction false} DedupUnique(links: seq<string>, seen: set<string>)
    ensures NamedOnce(Dedup(links, seen), seen)
  {
    hide FileName;
    if links != [] {
      var name := FileName(links[0]);
      if name.None? || name.value in seen {
        DedupUnique(links[1..], seen);
      } else {
        DedupUnique(links[1..], seen + {name.value});
        var d, rest := Dedup(links, seen), Dedup(links[1..], seen + {name.value});
        assert forall i :: 1 <= i < |d| ==> d[i] == rest[i - 1];
      }
    }
  }

  // ---- One run ----

  function Existing(page: Option<string>): seq<string> {
    if page.Some? then ReadLinks(page.value) else []
  }

  /** The links on the page after a run. */
  function Merged(page: Option<string>, r: Release): seq<string> {
    Dedup(NewLinks(r) + Existing(page), {})
  }

  lemma ExistingAreLinks(page: Option<string>)
    ensures forall i :: 0 <= i < |Existing(page)| ==> IsLink(Existing(page)[i])
  {
    if page.Some? { ReadAreLinks(page.value); }
  }

  lemma {:induction false} DedupKeepsLinks(links: seq<string>, seen: set<string>)
    requires forall i :: 0 <= i < |links| ==> IsLink(links[i])
    ensures forall i :: 0 <= i < |Dedup(links, seen)| ==> IsLink(Dedup(links, seen)[i])
  {
    hide FileName, IsLink;
    if links != [] {
      var name := FileName(links[0]);
      DedupKeepsLinks(links[1..], if name.None? || name.value in seen then seen else seen + {name.value});
    }
  }

  /** Reading the page that a run wrote gives back the links it wrote. */
  lemma MergedRoundTrip(cuda: string, page: Option<string>, r: Release)
    requires OneLine(cuda) && ValidRelease(r)
    ensures ReadLinks(PackagePage(cuda, Merged(page, r))) == Merged(page, r)
  {
    hide IsLink, FileName, Dedup, ReadLinks, PackagePage, ValidRelease;
    NewLinksOk(r);
    ExistingAreLinks(page);
    var all := NewLinks(r) + Existing(page);
    forall i | 0 <= i < |all| ensures IsLink(all[i]) {
      if i >= |NewLinks(r)| { assert all[i] == Existing(page)[i - |NewLinks(r)|]; }
    }
    DedupKeepsLinks(all, {});
    PackageRoundTrip(cuda, Merged(page, r));
  }

  // ---- Histories ----

  /** All links ever written, latest run first, then what was there before. */
  function Published(before: seq<string>, runs: seq<Release>): seq<string> {
    if runs == [] then before
    else NewLinks(runs[|runs| - 1]) + Published(before, runs[..|runs| - 1])
  }

  /** The page after a sequence of runs; a run without wheels fails and leaves it. */
  function PageAfter(cuda: string, page: Option<string>, runs: seq<Release>): Option<string> {
    if runs == [] then page
    else
      var before, r := PageAfter(cuda, page, runs[..|runs| - 1]), runs[|runs| - 1];
      if r.wheels == [] then before else Some(PackagePage(cuda, Merged(before, r)))
  }

  predicate ValidRuns(runs: seq<Release>) {
    forall i :: 0 <= i < |runs| ==> ValidRelease(runs[i])
  }

  /** Some run had wheels to publish. */
  predicate AnyWheels(runs: seq<Release>) {
    exists i :: 0 <= i < |runs| && runs[i].wheels != []
  }

  /** After any sequence of runs the page lists exactly one link per file name
      ever published: of all links, latest run first, the first with that name. */
  lemma {:induction false} IndexHistory(cuda: string, page: Option<string>, runs: seq<Release>)
    requires OneLine(cuda) && ValidRuns(runs)
    ensures AnyWheels(runs) ==> Existing(PageAfter(cuda, page, runs)) == Dedup(Published(Existing(page), runs), {})
    ensures !AnyWheels(runs) ==> PageAfter(cuda, page, runs) == page && Published(Existing(page), runs) == Existing(page)
  {
    hide ReadLinks, PackagePage, ValidRelease, Dedup, Names, FileName;
    if runs != [] {
      var last := |runs| - 1;
      var earlier, r := runs[..last], runs[last];
      var before, older := PageAfter(cuda, page, earlier), Published(Existing(page), earlier);
      IndexHistory(cuda, page, earlier);
      assert AnyWheels(runs) == (AnyWheels(earlier) || r.wheels != []) by { AnyWheelsSplit(runs); }
      if r.wheels == [] {
        assert NewLinks(r) == [] && [] + older == older;
      } else {
        MergedRoundTrip(cuda, before, r);
        AbsorbEarlier(NewLinks(r), older);
      }
    }
  }

  lemma AnyWheelsSplit(runs: seq<Release>)
    requires runs != []
    ensures AnyWheels(runs) <==> AnyWheels(runs[..|runs| - 1]) || runs[|runs| - 1].wheels != []
  {
    var earlier := runs[..|runs| - 1];
    assert forall i :: 0 <= i < |earlier| ==> earlier[i] == runs[i];
  }

  lemma AbsorbEarlier(newer: seq<string>, older: seq<string>)
    ensures Dedup(newer + Dedup(older, {}), {}) == Dedup(newer + older, {})
  {
    hide Dedup, Names;
    DedupConcat(newer, Dedup(older, {}), {});
    DedupConcat(newer, older, {});
    DedupTwice(older, {}, {} + Names(newer));
  }

  /** No run after run `k` published a wheel of this name. */
  predicate NotLater(runs: seq<Release>, k: nat, name: string) {
    forall m, i :: k < m < |runs| && 0 <= i < |runs[m].wheels| ==> runs[m].wheels[i].name != name
  }

  lemma {:induction false} PublishedFirst(before: seq<string>, runs: seq<Release>, k: nat, i: nat) returns (p: nat)
    requires ValidRuns(runs) && k < |runs| && i < |runs[k].wheels| && NotLater(runs, k, runs[k].wheels[i].name)
    ensures p < |Published(before, runs)| && Published(before, runs)[p] == LinkOf(runs[k].tag, runs[k].wheels[i])
    ensures FirstOfName(Published(before, runs), {}, p)
    ensures FileName(Published(before, runs)[p]) == Some(runs[k].wheels[i].name)
  {
    hide FileName, LinkOf, WheelName, Plain;
    var last, all := |runs| - 1, Published(before, runs);
    var latest, w := NewLinks(runs[last]), runs[k].wheels[i];
    NewLinksOk(runs[last]);
    if k == last {
      p := i;
      assert forall j :: 0 <= j <= i ==> all[j] == latest[j];
    } else {
      var q := PublishedFirst(before, runs[..last], k, i);
      p := |latest| + q;
      var older := Published(before, runs[..last]);
      assert all[p] == older[q];
      forall j | 0 <= j < p ensures FileName(all[j]) != Some(w.name) {
        if j < |latest| { assert all[j] == latest[j]; } else { assert all[j] == older[j - |latest|]; }
      }
    }
  }

  /** The latest run that published a file name decides its only link, which
      points to that run's file. */
  lemma LatestWins(cuda: string, page: Option<string>, runs: seq<Release>, k: nat, i: nat)
    requires OneLine(cuda) && ValidRuns(runs)
    requires k < |runs| && i < |runs[k].wheels| && NotLater(runs, k, runs[k].wheels[i].name)
    ensures var links, x := Existing(PageAfter(cuda, page, runs)), LinkOf(runs[k].tag, runs[k].wheels[i]);
            && x in links
            && (Addressable(runs[k].tag, runs[k].wheels[i]) ==> PointsTo(x, runs[k].tag, runs[k].wheels[i]))
            && forall j :: 0 <= j < |links| && FileName(links[j]) == Some(runs[k].wheels[i].name) ==> links[j] == x
  {
    hide FileName, LinkOf, PageAfter, Dedup, ReadLinks, ValidRelease, PointsTo, Addressable;
    var all, x := Published(Existing(page), runs), LinkOf(runs[k].tag, runs[k].wheels[i]);
    if Addressable(runs[k].tag, runs[k].wheels[i]) { LinkPoints(runs[k].tag, runs[k].wheels[i]); }
    var links := Existing(PageAfter(cuda, page, runs));
    assert AnyWheels(runs) by { assert runs[k].wheels != []; }
    IndexHistory(cuda, page, runs);
    var p := PublishedFirst(Existing(page), runs, k, i);
    DedupExact(all, {}, x);
    DedupUnique(all, {});
    assert x in links;
    var at :| 0 <= at < |links| && links[at] == x;
  }

  /** Nothing is listed that was not published or there before. */
  lemma OnlyPublished(cuda: string, page: Option<string>, runs: seq<Release>, x: string)
    requires OneLine(cuda) && ValidRuns(runs) && AnyWheels(runs)
    requires x in Existing(PageAfter(cuda, page, runs))
    ensures x in Published(Existing(page), runs) && FileName(x).Some?
  {
    hide FileName, PageAfter, Dedup, ReadLinks, Published, ValidRelease;
    IndexHistory(cuda, page, runs);
    DedupExact(Published(Existing(page), runs), {}, x);
  }

  /** Links whose file name is not among `names`. */
  function Without(links: seq<string>, names: set<string>): seq<string> {
    if links == [] then []
    else
      var name := FileName(links[0]);
      (if name.Some? && name.value in names then [] else [links[0]]) + Without(links[1..], names)
  }

  lemma {:induction false} DedupWithout(links: seq<string>, seen: set<string>, names: set<string>)
    ensures Dedup(links, seen + names) == Without(Dedup(links, seen), names)
  {
    hide FileName;
    if links != [] {
      var name := FileName(links[0]);
      if name.None? || name.value in seen {
        DedupWithout(links[1..], seen, names);
      } else {
        var rest := Dedup(links[1..], seen + {name.value});
        assert ([links[0]] + rest)[1..] == rest;
        DedupWithout(links[1..], seen + {name.value}, names);
        if name.value in names {
          assert seen + {name.value} + names == seen + names;
        } else {
          assert seen + {name.value} + names == seen + names + {name.value};
        }
      }
    }
  }

  lemma {:induction false} DedupDistinct(links: seq<string>, seen: set<string>)
    requires NamedOnce(links, seen)
    ensures Dedup(links, seen) == links
  {
    hide FileName;
    if links != [] {
      DedupDistinct(links[1..], seen + {FileName(links[0]).value});
      assert links == [links[0]] + links[1..];
    }
  }

  /** Order of the page: the run's own links, in its order, then the earlier
      links that it did not replace, in theirs. */
  lemma NewestFirst(page: Option<string>, r: Release)
    requires ValidRelease(r)
    ensures Merged(page, r) == NewLinks(r) + Without(Dedup(Existing(page), {}), Names(NewLinks(r)))
  {
    hide FileName, ReadLinks, Dedup, Without, Names, LinkOf;
    var mine, prior := NewLinks(r), Existing(page);
    NewLinksOk(r);
    assert NamedOnce(mine, {});
    DedupDistinct(mine, {});
    DedupConcat(mine, prior, {});
    DedupWithout(prior, {}, Names(mine));
    assert {} + Names(mine) == Names(mine);
  }

  lemma {:induction false} DedupAllSeen(links: seq<string>, seen: set<string>)
    requires Names(links) <= seen
    ensures Dedup(links, seen) == []
  {
    hide FileName;
    if links != [] { DedupAllSeen(links[1..], seen); }
  }

  /** Repeating a run leaves the page as it is. */
  lemma RepeatChangesNothing(cuda: string, page: Option<string>, r: Release)
    requires OneLine(cuda) && ValidRelease(r)
    ensures var once := Some(PackagePage(cuda, Merged(page, r)));
            Some(PackagePage(cuda, Merged(once, r))) == once
  {
    hide ReadLinks, PackagePage, Dedup, Names, NewLinks, ValidRelease;
    var mine, prior := NewLinks(r), Existing(page);
    MergedRoundTrip(cuda, page, r);
    AbsorbEarlier(mine, mine + prior);
    DedupConcat(mine, mine + prior, {});
    DedupConcat(mine, prior, {} + Names(mine));
    DedupAllSeen(mine, {} + Names(mine));
    DedupConcat(mine, prior, {});
    assert {} + Names(mine) + Names(mine) == {} + Names(mine);
    assert [] + Dedup(prior, {} + Names(mine)) == Dedup(prior, {} + Names(mine));
  }

  // ---- The root page ----

  /** Order of strings by their first differing character. */
  predicate Less(a: string, b: string) {
    if b == "" then false
    else if a == "" then true
    else a[0] < b[0] || (a[0] == b[0] && Less(a[1..], b[1..]))
  }

  /** `a` and `b` agree on their first `k` characters; then `a` ends and `b` goes
      on, or `a` has the smaller character. */
  predicate FirstDifference(a: string, b: string, k: nat) {
    && k <= |a| && k < |b| && a[..k] == b[..k]
    && (k == |a| || a[k] < b[k])
  }

  /** The order is the one by the first differing character. */
  lemma {:induction false} LessExact(a: string, b: string)
    ensures Less(a, b) <==> exists k: nat :: FirstDifference(a, b, k)
  {
    if b == "" {
    } else if a == "" {
      assert FirstDifference(a, b, 0);
    } else {
      LessExact(a[1..], b[1..]);
      if Less(a, b) {
        if a[0] < b[0] {
          assert FirstDifference(a, b, 0);
        } else {
          var k: nat :| FirstDifference(a[1..], b[1..], k);
          assert a[..k + 1] == [a[0]] + a[1..][..k] && b[..k + 1] == [b[0]] + b[1..][..k];
          assert FirstDifference(a, b, k + 1);
        }
      }
      if k: nat :| FirstDifference(a, b, k) {
        if k > 0 {
          assert a[0] == a[..k][0] && b[0] == b[..k][0];
          assert a[1..][..k - 1] == a[..k][1..] && b[1..][..k - 1] == b[..k][1..];
          assert FirstDifference(a[1..], b[1..], k - 1);
        }
      }
    }
  }

  lemma {:induction false} LessAsymmetric(a: string, b: string)
    ensures !(Less(a, b) && Less(b, a))
  {
    if a != "" && b != "" { LessAsymmetric(a[1..], b[1..]); }
  }

  lemma {:induction false} LessTotal(a: string, b: string)
    ensures Less(a, b) || Less(b, a) || a == b
  {
    if a != "" && b != "" {
      LessTotal(a[1..], b[1..]);
      assert a == [a[0]] + a[1..] && b == [b[0]] + b[1..];
    }
  }

  lemma {:induction false} LessTransitive(a: string, b: string, c: string)
    requires Less(a, b) && Less(b, c)
    ensures Less(a, c)
  {
    if a != "" && b != "" && c != "" && a[0] == b[0] == c[0] { LessTransitive(a[1..], b[1..], c[1..]); }
  }

  predicate Ascending(names: seq<string>) {
    forall i, j :: 0 <= i < j < |names| ==> Less(names[i], names[j])
  }

  function SetOf(names: seq<string>): set<string> { set n | n in names }

  lemma EmptySet(names: seq<string>)
    ensures SetOf(names) == {} <==> names == []
  {
    if names != [] { assert names[0] in SetOf(names); }
  }

  /** A set has at most one ascending listing. */
  lemma {:induction false} AscendingUnique(a: seq<string>, b: seq<string>)
    requires Ascending(a) && Ascending(b) && SetOf(a) == SetOf(b)
    ensures a == b
  {
    if a == [] {
      EmptySet(b);
    } else {
      assert a[0] in SetOf(a);
      assert a[0] in b;
      SameLeast(a, b);
      assert a == [a[0]] + a[1..] && b == [b[0]] + b[1..];
      TailSet(a);
      TailSet(b);
      AscendingUnique(a[1..], b[1..]);
    }
  }

  lemma SameLeast(a: seq<string>, b: seq<string>)
    requires Ascending(a) && Ascending(b) && SetOf(a) == SetOf(b) && a != [] && b != []
    ensures a[0] == b[0]
  {
    assert a[0] in SetOf(a) && b[0] in SetOf(b);
    var i :| 0 <= i < |b| && b[i] == a[0];
    var j :| 0 <= j < |a| && a[j] == b[0];
    LessAsymmetric(a[0], b[0]);
  }

  lemma TailSet(a: seq<string>)
    requires Ascending(a) && a != []
    ensures SetOf(a[1..]) == SetOf(a) - {a[0]}
  {
    LessAsymmetric(a[0], a[0]);
    assert a == [a[0]] + a[1..];
    assert forall i :: 0 <= i < |a[1..]| ==> Less(a[0], a[1..][i]);
  }

  /** The number of entries at the front that come before `x`. */
  function PlaceOf(names: seq<string>, x: string): (k: nat)
    ensures k <= |names| && (forall i :: 0 <= i < k ==> Less(names[i], x)) && (k < |names| ==> !Less(names[k], x))
  {
    if names == [] || !Less(names[0], x) then 0 else 1 + PlaceOf(names[1..], x)
  }

  lemma LaterNames(names: seq<string>, x: string, k: nat, i: nat)
    requires Ascending(names) && x !in names && k <= i < |names| && !Less(names[k], x)
    ensures Less(x, names[i])
  {
    hide Less;
    LessTotal(x, names[k]);
    if i > k { LessTransitive(x, names[k], names[i]); }
  }

  lemma InsertAscending(names: seq<string>, x: string)
    requires Ascending(names) && x !in names
    ensures Ascending(Splice(names, PlaceOf(names, x), x))
    ensures SetOf(Splice(names, PlaceOf(names, x), x)) == SetOf(names) + {x}
  {
    hide Less, PlaceOf;
    var k := PlaceOf(names, x);
    SpliceMembers(names, k, x);
    forall i | k <= i < |names| ensures Less(x, names[i]) { LaterNames(names, x, k, i); }
    SpliceAscending(names, k, x);
  }

  lemma SpliceAscending(names: seq<string>, k: nat, x: string)
    requires Ascending(names) && k <= |names|
    requires forall i :: 0 <= i < k ==> Less(names[i], x)
    requires forall i :: k <= i < |names| ==> Less(x, names[i])
    ensures Ascending(Splice(names, k, x))
  {
    hide Less;
    var r := Splice(names, k, x);
    forall i, j | 0 <= i < j < |r| ensures Less(r[i], r[j]) {
      assert r[i] == if i < k then names[i] else if i == k then x else names[i - 1];
      assert r[j] == if j < k then names[j] else if j == k then x else names[j - 1];
    }
  }

  /** Every finite set of names has an ascending listing. */
  method SortNames(names: set<string>) returns (order: seq<string>)
    ensures Ascending(order) && SetOf(order) == names
  {
    hide Ascending, Less;
    order := [];
    assert Ascending(order) by { EmptyAscending(); }
    var rest := names;
    while rest != {}
      invariant Ascending(order) && SetOf(order) + rest == names && SetOf(order) !! rest
      decreases |rest|
    {
      var x :| x in rest;
      InsertAscending(order, x);
      order := Splice(order, PlaceOf(order, x), x);
      rest := rest - {x};
    }
  }

  lemma EmptyAscending()
    ensures Ascending([])
  {
  }

  /** Package names on the root page, if there is one, and this package. */
  function PackageSet(page: Option<string>): set<string> {
    (if page.Some? then SetOf(Packages(page.value)) else {}) + {"sglang"}
  }

  /** `order` is the sorted list of the names to be written. */
  predicate SortedNames(page: Option<string>, order: seq<string>) {
    Ascending(order) && SetOf(order) == PackageSet(page)
  }

  lemma NamesReadable(page: Option<string>, order: seq<string>)
    requires SortedNames(page, order)
    ensures forall i :: 0 <= i < |order| ==> order[i] != "" && '"' !in order[i]
  {
    hide Packages, Ascending;
    forall i | 0 <= i < |order| ensures order[i] != "" && '"' !in order[i] {
      assert order[i] in SetOf(order);
      if order[i] != "sglang" { assert order[i] in Packages(page.value); } else { SglangPlain(); }
    }
  }

  lemma SglangPlain()
    ensures "sglang" != "" && '"' !in "sglang"
  {
  }

  /** Reading the root page that was written gives back its names, whatever the
      page before it; writing it again changes nothing. */
  lemma RootIndexStable(page: Option<string>, order: seq<string>, again: seq<string>)
    requires SortedNames(page, order) && SortedNames(Some(RootPage(order)), again)
    ensures Packages(RootPage(order)) == order
    ensures PackageSet(Some(RootPage(order))) == PackageSet(page)
    ensures RootPage(again) == RootPage(order)
  {
    hide Packages, Ascending, RootPage;
    NamesReadable(page, order);
    RootRoundTrip(order);
    AscendingUnique(order, again);
  }

  // ---- The repository on disk ----

  /** The two pages of one CUDA version; a page may not exist yet. */
  class Repository {
    const cuda: string
    var packagePage: Option<string>
    var rootPage: Option<string>

    constructor (version: string)
      ensures cuda == version && packagePage == None && rootPage == None
    {
      cuda := version;
      packagePage, rootPage := None, None;
    }

    /** One run. A run without wheels is an error and changes nothing. */
    method Update(r: Release) returns (ok: bool)
      requires OneLine(cuda) && ValidRelease(r)
      modifies this
      ensures ok <==> r.wheels != []
      ensures packagePage == PageAfter(cuda, old(packagePage), [r])
      ensures PackageSet(rootPage) == PackageSet(old(rootPage))
      ensures ok ==> Existing(packagePage) == Merged(old(packagePage), r)
      ensures !ok ==> rootPage == old(rootPage)
      ensures ok ==>
        && rootPage.Some? && SortedNames(old(rootPage), Packages(rootPage.value))
        && SetOf(Packages(rootPage.value)) ==
           (if old(rootPage).Some? then SetOf(Packages(old(rootPage).value)) else {}) + {"sglang"}
        && rootPage.value == RootPage(Packages(rootPage.value))
    {
      hide ValidRelease, Packages, ReadLinks, PackagePage, RootPage, Ascending;
      assert [r][..0] == [] && PageAfter(cuda, packagePage, []) == packagePage;
      var existing := if packagePage.Some? then ReadLinks(packagePage.value) else [];
      var added := NewLinks(r);
      if added == [] { return false; }
      var unique := DropDuplicates(added + existing);
      MergedRoundTrip(cuda, packagePage, r);
      var order := SortNames(PackageSet(rootPage));
      NamesReadable(rootPage, order);
      RootRoundTrip(order);
      rootPage := Some(RootPage(order));
      packagePage := Some(PackagePage(cuda, unique));
      ok := true;
    }
  }
}
