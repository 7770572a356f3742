/**
 * The breadcrumb of the user-details page (package user-extension): the
 * section label computed from the current pathname, and the three-item
 * trail built around it. The pathname is a parameter here instead of
 * being read from `window.location`.
 */
module UserExtension {
  import opened Wrappers

  /* ---------- String.prototype.split with a one-character separator ---------- */

  /** A non-empty string contains `c` when its head is `c` or its tail contains `c`. */
  lemma ContainsStep(s: string, c: char)
    requires s != []
    ensures c in s <==> s[0] == c || c in s[1..]
  {
    if c in s && s[0] != c {
      var k :| 0 <= k < |s| && s[k] == c;
      assert s[1..][k - 1] == c;
    }
  }

  /**
   * JavaScript's `s.split(sep)`: the pieces between separators, an empty
   * piece before a leading, after a trailing and between two adjacent
   * separators, and `[""]` for the empty string.
   */
  function Split(s: string, sep: char): (parts: seq<string>)
    ensures |parts| >= 1
    decreases |s|
  {
    if s == [] then [""]
    else
      var rest := Split(s[1..], sep);
      if s[0] == sep then [""] + rest
      else [[s[0]] + rest[0]] + rest[1..]
  }

  /** A string without the separator is one piece; a string with it is several. */
  lemma {:induction false} SplitSingle(s: string, sep: char)
    ensures sep !in s ==> Split(s, sep) == [s]
    ensures sep in s ==> |Split(s, sep)| > 1
    decreases |s|
  {
    if s != [] {
      SplitSingle(s[1..], sep);
      ContainsStep(s, sep);
      var rest := Split(s[1..], sep);
      if s[0] != sep {
        assert Split(s, sep) == [[s[0]] + rest[0]] + rest[1..];
        assert sep !in s ==> [s[0]] + s[1..] == s;
      }
    }
  }

  /** No piece of a split contains the separator. */
  lemma {:induction false} SplitPiecesFree(s: string, sep: char)
    ensures forall i :: 0 <= i < |Split(s, sep)| ==> sep !in Split(s, sep)[i]
    decreases |s|
  {
    if s != [] {
      SplitPiecesFree(s[1..], sep);
      var rest := Split(s[1..], sep);
      if s[0] == sep {
        assert Split(s, sep) == [""] + rest;
      } else {
        var parts := [[s[0]] + rest[0]] + rest[1..];
        assert Split(s, sep) == parts;
        assert sep !in rest[0];
        assert sep !in parts[0] by {
          ContainsStep(parts[0], sep);
          assert parts[0][1..] == rest[0];
        }
        forall i | 1 <= i < |parts|
          ensures sep !in parts[i]
        {
          assert parts[i] == rest[i];
        }
      }
    }
  }

  /** JavaScript's `parts.join(sep)`. */
  function Join(parts: seq<string>, sep: char): string
  {
    if |parts| == 0 then ""
    else if |parts| == 1 then parts[0]
    else parts[0] + [sep] + Join(parts[1..], sep)
  }

  /** Splitting loses nothing: joining the pieces gives the string back. */
  lemma {:induction false} JoinSplit(s: string, sep: char)
    ensures Join(Split(s, sep), sep) == s
    decreases |s|
  {
    if s != [] {
      var rest := Split(s[1..], sep);
      JoinSplit(s[1..], sep);
      if s[0] == sep {
        assert ([""] + rest)[1..] == rest;
      } else {
        var parts := [[s[0]] + rest[0]] + rest[1..];
        if |rest| > 1 {
          assert parts[1..] == rest[1..];
          assert Join(rest, sep) == rest[0] + [sep] + Join(rest[1..], sep);
        }
        assert s == [s[0]] + s[1..];
      }
    }
  }

  /** A piece free of separators, then a separator, splits off as the first piece. */
  lemma {:induction false} SplitAfterPiece(a: string, b: string, sep: char)
    requires sep !in a
    ensures Split(a + [sep] + b, sep) == [a] + Split(b, sep)
    decreases |a|
  {
    var s := a + [sep] + b;
    if a == [] {
      assert s[1..] == b;
    } else {
      assert s[1..] == a[1..] + [sep] + b;
      SplitAfterPiece(a[1..], b, sep);
      assert [s[0]] + a[1..] == a;
    }
  }

  /** Joining separator-free pieces and splitting again gives the pieces back. */
  lemma {:induction false} SplitJoin(parts: seq<string>, sep: char)
    requires |parts| >= 1
    requires forall i :: 0 <= i < |parts| ==> sep !in parts[i]
    ensures Split(Join(parts, sep), sep) == parts
    decreases |parts|
  {
    if |parts| == 1 {
      SplitSingle(parts[0], sep);
    } else {
      SplitJoin(parts[1..], sep);
      SplitAfterPiece(parts[0], Join(parts[1..], sep), sep);
      assert [parts[0]] + parts[1..] == parts;
    }
  }

  /* ---------- the last segment of a pathname ---------- */

  /**
   * `seg` is the text after the final `sep` of `s` (all of `s` when it has
   * no `sep`): a suffix of `s`, free of `sep`, that starts right after a
   * `sep` or at the start of `s`.
   */
  ghost predicate IsFinalSegment(seg: string, s: string, sep: char)
  {
    |seg| <= |s| && seg == s[|s| - |seg|..] && sep !in seg &&
    (|seg| == |s| || s[|s| - |seg| - 1] == sep)
  }

  /**
   * The final segment of `s[1..]` is also that of `s`, unless it is the
   * whole of `s[1..]` and the first character of `s` is not a separator.
   */
  lemma FinalSegmentExtend(s: string, seg: string, sep: char)
    requires |s| > 0 && IsFinalSegment(seg, s[1..], sep)
    requires |seg| < |s| - 1 || s[0] == sep
    ensures IsFinalSegment(seg, s, sep)
  {
    assert s[|s| - |seg|..] == s[1..][|s| - 1 - |seg|..];
    if |seg| < |s| - 1 {
      assert s[|s| - |seg| - 1] == s[1..][|s| - 1 - |seg| - 1];
    }
  }

  /**
   * One step of a split: a string with a separator ends with the same
   * piece as its tail; one without is a single piece.
   */
  lemma SplitLastStep(s: string, sep: char)
    requires s != []
    ensures var parts, rest := Split(s, sep), Split(s[1..], sep);
      if sep in s then parts[|parts| - 1] == rest[|rest| - 1] else parts == [s]
  {
    var parts, rest := Split(s, sep), Split(s[1..], sep);
    ContainsStep(s, sep);
    SplitSingle(s, sep);
    SplitSingle(s[1..], sep);
    if s[0] == sep {
      assert parts == [""] + rest;
      assert |parts| == |rest| + 1;
      assert parts[|parts| - 1] == rest[|rest| - 1];
    } else if sep in s[1..] {
      assert parts == [[s[0]] + rest[0]] + rest[1..];
      assert |rest| > 1 && |parts| == |rest|;
      assert parts[|parts| - 1] == rest[1..][|rest| - 2];
    } else {
      assert sep !in s;
    }
  }

  /** The last piece of a split is the text after the final separator. */
  lemma {:induction false} SplitLast(s: string, sep: char)
    ensures var parts := Split(s, sep); IsFinalSegment(parts[|parts| - 1], s, sep)
    decreases |s|
  {
    if s != [] {
      SplitLastStep(s, sep);
      if sep in s {
        SplitLast(s[1..], sep);
        var rest := Split(s[1..], sep);
        var seg := rest[|rest| - 1];
        ContainsStep(s, sep);
        FinalSegmentExtend(s, seg, sep);
      } else {
        assert s[|s| - |s|..] == s;
      }
    }
  }

  /** The text after the final separator is unique. */
  lemma FinalSegmentUnique(a: string, b: string, s: string, sep: char)
    requires IsFinalSegment(a, s, sep) && IsFinalSegment(b, s, sep)
    ensures a == b
  {
  }

  /**
   * `last(pathname.split('/'))`: the current section of the pathname,
   * i.e. the text after its final `/`.
   */
  function LastSegment(pathname: string): (section: string)
    ensures IsFinalSegment(section, pathname, '/')
  {
    SplitLast(pathname, '/');
    var parts := Split(pathname, '/');
    parts[|parts| - 1]
  }

  /** The section depends only on the text after the final `/`. */
  lemma LastSegmentAfterSlash(prefix: string, section: string)
    requires '/' !in section
    ensures LastSegment(prefix + "/" + section) == section
  {
    var p := prefix + "/" + section;
    assert IsFinalSegment(section, p, '/') by {
      assert p[|p| - |section|..] == section;
      assert p[|p| - |section| - 1] == '/';
    }
    FinalSegmentUnique(LastSegment(p), section, p, '/');
  }

  /* ---------- lodash `capitalize`, over ASCII ---------- */

  predicate IsAsciiUpper(c: char) { 'A' <= c <= 'Z' }

  predicate IsAsciiLower(c: char) { 'a' <= c <= 'z' }

  function ToUpper(c: char): char
  {
    if IsAsciiLower(c) then (c as int - 32) as char else c
  }

  function ToLower(c: char): char
  {
    if IsAsciiUpper(c) then (c as int + 32) as char else c
  }

  /** `s.toLowerCase()`, over ASCII. */
  function LowerCase(s: string): string
  {
    seq(|s|, i requires 0 <= i < |s| => ToLower(s[i]))
  }

  /**
   * `r` is a capitalisation of `s`: same length, the same letters up to
   * case, the first character not lower-case, the others not upper-case.
   */
  ghost predicate IsCapitalizationOf(r: string, s: string)
  {
    |r| == |s| &&
    (forall i :: 0 <= i < |s| ==> ToLower(r[i]) == ToLower(s[i])) &&
    (|r| > 0 ==> !IsAsciiLower(r[0])) &&
    (forall i :: 0 < i < |r| ==> !IsAsciiUpper(r[i]))
  }

  /** lodash `capitalize`: first character upper-cased, the rest lower-cased. */
  function Capitalize(s: string): (r: string)
    ensures IsCapitalizationOf(r, s)
  {
    if s == "" then "" else [ToUpper(s[0])] + LowerCase(s[1..])
  }

  /** There is only one capitalisation of a string, and Capitalize computes it. */
  lemma CapitalizationUnique(r: string, s: string)
    requires IsCapitalizationOf(r, s)
    ensures r == Capitalize(s)
  {
    var c := Capitalize(s);
    forall i | 0 <= i < |s|
      ensures r[i] == c[i]
    {
      assert ToLower(r[i]) == ToLower(c[i]);
    }
  }

  /** Capitalising twice is capitalising once. */
  lemma CapitalizeIdempotent(s: string)
    ensures Capitalize(Capitalize(s)) == Capitalize(s)
  {
    var c := Capitalize(s);
    assert IsCapitalizationOf(c, c);
    CapitalizationUnique(c, c);
  }

  /* ---------- the breadcrumb ---------- */

  /**
   * `getBreadcrumbText`: the section `api-keys` reads "API keys"; every
   * other section is shown capitalised.
   */
  function BreadcrumbText(pathname: string): (text: string)
    ensures LastSegment(pathname) == "api-keys" ==> text == "API keys"
    ensures LastSegment(pathname) != "api-keys" ==> IsCapitalizationOf(text, LastSegment(pathname))
  {
    var currentSection := LastSegment(pathname);
    if currentSection == "api-keys" then "API keys" else Capitalize(currentSection)
  }

  /**
   * The label of a pathname `prefix/section` is fixed by `section` alone;
   * a pathname ending in `/` has an empty label.
   */
  lemma BreadcrumbTextOfSection(prefix: string, section: string)
    requires '/' !in section
    ensures BreadcrumbText(prefix + "/" + section) ==
      if section == "api-keys" then "API keys" else Capitalize(section)
    ensures section == "" ==> BreadcrumbText(prefix + "/" + section) == ""
  {
    LastSegmentAfterSlash(prefix, section);
  }

  /** One entry of the Breadcrumbs component: its text and optional `href` and `link`. */
  datatype BreadcrumbItem = BreadcrumbItem(text: string, href: Option<string>, link: Option<string>)

  /**
   * The `breadcrumbItems` list of the user-details page: always three
   * items, Home (href "/"), User details (link "/"), then the section label.
   */
  function BreadcrumbItems(pathname: string): (items: seq<BreadcrumbItem>)
    ensures |items| == 3
    ensures items[0] == BreadcrumbItem("Home", Some("/"), None)
    ensures items[1] == BreadcrumbItem("User details", None, Some("/"))
    ensures items[2].href == None && items[2].link == None
    ensures LastSegment(pathname) == "api-keys" ==> items[2].text == "API keys"
    ensures LastSegment(pathname) != "api-keys" ==> IsCapitalizationOf(items[2].text, LastSegment(pathname))
  {
    [
      BreadcrumbItem("Home", Some("/"), None),
      BreadcrumbItem("User details", None, Some("/")),
      BreadcrumbItem(BreadcrumbText(pathname), None, None)
    ]
  }

  /** The section labels of the pages the user-details router serves, under any prefix. */
  lemma ApiKeysLabel(prefix: string)
    ensures BreadcrumbText(prefix + "/api-keys") == "API keys"
  {
    assert prefix + "/api-keys" == prefix + "/" + "api-keys";
    BreadcrumbTextOfSection(prefix, "api-keys");
  }

  lemma CapitalizeProfile()
    ensures Capitalize("profile") == "Profile"
  {
    assert IsCapitalizationOf("Profile", "profile");
    CapitalizationUnique("Profile", "profile");
  }

  lemma ProfileLabel(prefix: string)
    ensures BreadcrumbText(prefix + "/profile") == "Profile"
  {
    assert prefix + "/profile" == prefix + "/" + "profile";
    BreadcrumbTextOfSection(prefix, "profile");
    CapitalizeProfile();
  }
}
