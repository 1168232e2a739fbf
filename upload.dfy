/**
 * The file names multer stores uploads under. backend/routes/authRoutes.js
 * replaces every run of whitespace in the original name by one `_`;
 * backend/routes.js then also drops every character outside
 * `[a-zA-Z0-9._-]`. Both prefix the name with the upload time in
 * milliseconds and a `-`. backend/routes.js also refuses files without a
 * MIME type.
 */
module Upload {
  import opened Common
  import Decimal

  /** The characters JavaScript's `\s` matches. */
  predicate IsSpace(c: char)
  {
    || c == ' ' || c == '\t' || c == '\n' || c == '\U{000B}' || c == '\U{000C}' || c == '\r'
    || c == '\U{00A0}' || c == '\U{1680}' || '\U{2000}' <= c <= '\U{200A}'
    || c == '\U{2028}' || c == '\U{2029}' || c == '\U{202F}' || c == '\U{205F}'
    || c == '\U{3000}' || c == '\U{FEFF}'
  }

  /** The characters of `[a-zA-Z0-9._-]`. */
  predicate IsSafe(c: char)
  {
    'a' <= c <= 'z' || 'A' <= c <= 'Z' || '0' <= c <= '9' || c == '.' || c == '_' || c == '-'
  }

  /** The characters of `s` that satisfy `p`, in order. */
  function Filter(s: string, p: char -> bool): (r: string)
    ensures |r| <= |s|
    ensures forall i :: 0 <= i < |r| ==> p(r[i])
  {
    if s == [] then [] else (if p(s[0]) then [s[0]] else []) + Filter(s[1..], p)
  }

  lemma {:induction false} FilterAppend(a: string, b: string, p: char -> bool)
    ensures Filter(a + b, p) == Filter(a, p) + Filter(b, p)
  {
    if a != [] {
      assert (a + b)[1..] == a[1..] + b;
      FilterAppend(a[1..], b, p);
    } else {
      assert a + b == b;
    }
  }

  /** A string whose characters all satisfy `p` is its own filter. */
  lemma {:induction false} FilterKeepsAll(s: string, p: char -> bool)
    requires forall i :: 0 <= i < |s| ==> p(s[i])
    ensures Filter(s, p) == s
  {
    if s != [] {
      FilterKeepsAll(s[1..], p);
    }
  }

  /** `s` without its leading whitespace. */
  function DropSpaces(s: string): (r: string)
    ensures |r| <= |s|
    ensures r == [] || !IsSpace(r[0])
  {
    if s != [] && IsSpace(s[0]) then DropSpaces(s[1..]) else s
  }

  /** `s.replace(/\s+/g, '_')`: each maximal run of whitespace becomes one `_`. */
  function Collapse(s: string): (r: string)
    ensures forall i :: 0 <= i < |r| ==> !IsSpace(r[i])
    decreases |s|
  {
    if s == [] then []
    else if !IsSpace(s[0]) then [s[0]] + Collapse(s[1..])
    else "_" + Collapse(DropSpaces(s[1..]))
  }

  /** A name without whitespace is left as it is. */
  lemma {:induction false} CollapseKeepsPlainNames(s: string)
    requires forall i :: 0 <= i < |s| ==> !IsSpace(s[i])
    ensures Collapse(s) == s
  {
    if s != [] {
      CollapseKeepsPlainNames(s[1..]);
    }
  }

  lemma {:induction false} DropSpacesOfRun(run: string, rest: string)
    requires forall i :: 0 <= i < |run| ==> IsSpace(run[i])
    requires rest == [] || !IsSpace(rest[0])
    ensures DropSpaces(run + rest) == rest
  {
    if run != [] {
      assert (run + rest)[1..] == run[1..] + rest;
      DropSpacesOfRun(run[1..], rest);
    } else {
      assert run + rest == rest;
    }
  }

  /**
   * A maximal whitespace run after a plain prefix becomes exactly one `_`,
   * and the rest of the name is treated on its own.
   */
  lemma {:induction false} CollapseRun(plain: string, run: string, rest: string)
    requires forall i :: 0 <= i < |plain| ==> !IsSpace(plain[i])
    requires |run| >= 1 && forall i :: 0 <= i < |run| ==> IsSpace(run[i])
    requires rest == [] || !IsSpace(rest[0])
    ensures Collapse(plain + run + rest) == plain + "_" + Collapse(rest)
    decreases |plain|
  {
    var s := plain + run + rest;
    if plain != [] {
      assert s[1..] == plain[1..] + run + rest;
      CollapseRun(plain[1..], run, rest);
    } else {
      assert s == run + rest;
      assert s[1..] == run[1..] + rest;
      DropSpacesOfRun(run[1..], rest);
    }
  }

  /** Neither whitespace nor `_`. */
  predicate IsVisible(c: char)
  {
    !IsSpace(c) && c != '_'
  }

  lemma {:induction false} DropSpacesVisible(s: string)
    ensures Filter(DropSpaces(s), IsVisible) == Filter(s, IsVisible)
  {
    if s != [] && IsSpace(s[0]) {
      DropSpacesVisible(s[1..]);
    }
  }

  /** Collapsing keeps every character that is neither whitespace nor `_`, in order. */
  lemma {:induction false} CollapseKeepsVisible(s: string)
    ensures Filter(Collapse(s), IsVisible) == Filter(s, IsVisible)
    decreases |s|
  {
    if s != [] {
      if !IsSpace(s[0]) {
        FilterAppend([s[0]], Collapse(s[1..]), IsVisible);
        CollapseKeepsVisible(s[1..]);
      } else {
        FilterAppend("_", Collapse(DropSpaces(s[1..])), IsVisible);
        CollapseKeepsVisible(DropSpaces(s[1..]));
        DropSpacesVisible(s[1..]);
      }
    }
  }

  /** The name backend/routes/authRoutes.js stores: `Date.now() + '-' + safeName`. */
  function StoredName(nowMs: nat, safeName: string): string
  {
    Decimal.Show(nowMs) + "-" + safeName
  }

  /** backend/routes/authRoutes.js: the original name with whitespace runs collapsed. */
  function AuthRoutesFileName(nowMs: nat, originalName: string): string
  {
    StoredName(nowMs, Collapse(originalName))
  }

  /** backend/routes.js: `replace(/\s+/g, '_').replace(/[^a-zA-Z0-9._-]/g, '')`. */
  function Sanitize(originalName: string): (r: string)
    ensures forall i :: 0 <= i < |r| ==> IsSafe(r[i])
  {
    Filter(Collapse(originalName), IsSafe)
  }

  function RoutesFileName(nowMs: nat, originalName: string): string
  {
    StoredName(nowMs, Sanitize(originalName))
  }

  predicate IsDash(c: char)
  {
    c == '-'
  }

  /** In digits followed by `-`, the first `-` is the one after the digits. */
  lemma FirstDashAfterDigits(t: string, rest: string)
    requires Decimal.AllDigits(t)
    ensures IndexOf(t + "-" + rest, IsDash) == Some(|t|)
  {
    var s := t + "-" + rest;
    forall k | 0 <= k < |t| ensures !IsDash(s[k]) {
      assert s[k] == t[k];
    }
    assert IsDash(s[|t|]);
  }

  /**
   * The text before the first `-` of a stored name is the upload time in
   * decimal and the text after it is the safe name, so the prefix can be
   * read back and two uploads at different times never share a name.
   */
  lemma StoredNameSplits(nowMs: nat, safeName: string)
    ensures var stored := StoredName(nowMs, safeName);
      var t := Decimal.Show(nowMs);
      && IndexOf(stored, IsDash) == Some(|t|)
      && stored[..|t|] == t && stored[|t| + 1..] == safeName
      && Decimal.Parse(stored[..|t|]) == nowMs
  {
    var t := Decimal.Show(nowMs);
    var stored := t + "-" + safeName;
    FirstDashAfterDigits(t, safeName);
    assert stored[..|t|] == t;
    assert stored[|t| + 1..] == safeName;
    Decimal.ParseShow(nowMs);
  }

  /**
   * The authRoutes name contains no whitespace, keeps every character that
   * is neither whitespace nor `_` in order, and leaves a name without
   * whitespace as it is.
   */
  lemma AuthRoutesFileNameProperties(nowMs: nat, originalName: string)
    ensures var name := Collapse(originalName);
      && AuthRoutesFileName(nowMs, originalName) == StoredName(nowMs, name)
      && (forall i :: 0 <= i < |name| ==> !IsSpace(name[i]))
      && Filter(name, IsVisible) == Filter(originalName, IsVisible)
      && ((forall i :: 0 <= i < |originalName| ==> !IsSpace(originalName[i])) ==> name == originalName)
  {
    CollapseKeepsVisible(originalName);
    if forall i :: 0 <= i < |originalName| ==> !IsSpace(originalName[i]) {
      CollapseKeepsPlainNames(originalName);
    }
  }

  /** Neither whitespace nor `_`, and permitted: a letter, a digit, `.` or `-`. */
  predicate IsSafeVisible(c: char)
  {
    IsSafe(c) && c != '_'
  }

  lemma {:induction false} FilterSafeVisible(s: string)
    ensures Filter(Filter(s, IsSafe), IsSafeVisible) == Filter(s, IsSafeVisible)
  {
    if s != [] {
      FilterSafeVisible(s[1..]);
      FilterAppend(if IsSafe(s[0]) then [s[0]] else [], Filter(s[1..], IsSafe), IsSafeVisible);
    }
  }

  lemma {:induction false} FilterVisibleSafe(s: string)
    ensures Filter(Filter(s, IsVisible), IsSafeVisible) == Filter(s, IsSafeVisible)
  {
    if s != [] {
      FilterVisibleSafe(s[1..]);
      FilterAppend(if IsVisible(s[0]) then [s[0]] else [], Filter(s[1..], IsVisible), IsSafeVisible);
    }
  }

  /**
   * The routes.js name holds only permitted characters, keeps every
   * permitted character of the original other than `_` in its order, and
   * sanitising it again changes nothing.
   */
  lemma SanitizeProperties(originalName: string)
    ensures var name := Sanitize(originalName);
      && (forall i :: 0 <= i < |name| ==> IsSafe(name[i]) && !IsSpace(name[i]))
      && Filter(name, IsSafeVisible) == Filter(originalName, IsSafeVisible)
      && Sanitize(name) == name
  {
    var collapsed := Collapse(originalName);
    var name := Sanitize(originalName);
    FilterSafeVisible(collapsed);
    CollapseKeepsVisible(originalName);
    FilterVisibleSafe(collapsed);
    FilterVisibleSafe(originalName);
    assert forall i :: 0 <= i < |name| ==> !IsSpace(name[i]) by {
      forall i | 0 <= i < |name| ensures !IsSpace(name[i]) {
        assert IsSafe(name[i]);
      }
    }
    CollapseKeepsPlainNames(name);
    FilterKeepsAll(name, IsSafe);
  }

  /** `fileFilter`: a file is accepted exactly when it has a non-empty MIME type. */
  function AcceptsFile(mimetype: Option<string>): (accepted: bool)
    ensures accepted <==> mimetype.Some? && |mimetype.value| > 0
  {
    Truthy(mimetype)
  }
}
