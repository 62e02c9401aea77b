/** backend/src/utils/helpers.js: `slugify` and `getMediaType`. */
module Helpers {
  import opened Text

  // ---------------------------------------------------------------------------
  // slugify: a chain of string rewrites

  /** Combining diacritical marks, U+0300 to U+036F. */
  predicate IsCombiningMark(c: char) { '\U{300}' <= c <= '\U{36F}' }

  /** `\w` or `-`: the characters `.replace(/[^\w\-]+/g, '')` keeps. */
  predicate IsWordOrDash(c: char) {
    IsLowerAscii(c) || IsUpperAscii(c) || IsDigit(c) || c == '_' || c == '-'
  }

  /** The characters a slug may hold. */
  predicate IsSlugChar(c: char) { IsLowerAscii(c) || IsDigit(c) || c == '_' || c == '-' }

  predicate NoDoubleDash(s: string) {
    forall i :: 0 <= i < |s| - 1 ==> !(s[i] == '-' && s[i + 1] == '-')
  }

  /** The shape every result of `Slugify` has. */
  predicate IsSlug(s: string) {
    && (forall i :: 0 <= i < |s| ==> IsSlugChar(s[i]))
    && (s == [] || (s[0] != '-' && s[|s| - 1] != '-'))
    && NoDoubleDash(s)
  }

  /** Every character of `r` comes from `s`, or is a `-`. */
  predicate CharsFrom(r: string, s: string) {
    forall i :: 0 <= i < |r| ==> r[i] in s || r[i] == '-'
  }

  /** `.replace(/[̀-ͯ]/g, '')` */
  function StripMarks(s: string): (r: string)
    ensures CharsFrom(r, s)
  {
    if s == [] then []
    else if IsCombiningMark(s[0]) then StripMarks(s[1..])
    else [s[0]] + StripMarks(s[1..])
  }

  /** `.replace(/\s+/g, '-')`: every maximal run of white space becomes one `-`. */
  function DashSpaces(s: string): (r: string)
    ensures NoSpaces(r)
    ensures CharsFrom(r, s)
    decreases |s|
  {
    if s == [] then []
    else if IsJsSpace(s[0]) then "-" + DashSpaces(TrimStart(s))
    else [s[0]] + DashSpaces(s[1..])
  }

  /** `.replace(/[^\w\-]+/g, '')` */
  function KeepWordChars(s: string): (r: string)
    ensures forall i :: 0 <= i < |r| ==> IsWordOrDash(r[i])
    ensures CharsFrom(r, s)
  {
    if s == [] then []
    else if IsWordOrDash(s[0]) then [s[0]] + KeepWordChars(s[1..])
    else KeepWordChars(s[1..])
  }

  /** `.replace(/\-\-+/g, '-')`: every run of two or more dashes becomes one. */
  function CollapseDashes(s: string): (r: string)
    ensures NoDoubleDash(r)
    ensures CharsFrom(r, s)
    ensures s != [] ==> r != [] && r[0] == s[0]
  {
    if |s| < 2 then s
    else if s[0] == '-' && s[1] == '-' then CollapseDashes(s[1..])
    else [s[0]] + CollapseDashes(s[1..])
  }

  /** `.replace(/^-+/, '')` */
  function StripLeadingDashes(s: string): (r: string)
    ensures |r| <= |s|
    ensures forall i :: 0 <= i < |r| ==> r[i] == s[|s| - |r| + i]
    ensures r == [] || r[0] != '-'
  {
    if s != [] && s[0] == '-' then StripLeadingDashes(s[1..]) else s
  }

  /** `.replace(/-+$/, '')` */
  function StripTrailingDashes(s: string): (r: string)
    ensures |r| <= |s|
    ensures forall i :: 0 <= i < |r| ==> r[i] == s[i]
    ensures r == [] || r[|r| - 1] != '-'
  {
    if s != [] && s[|s| - 1] == '-' then StripTrailingDashes(s[..|s| - 1]) else s
  }

  /**
   * `slugify(text)`. `normalize('NFD')` is taken as the identity (exact for text that is
   * already decomposed, ASCII text included) and `toLowerCase` folds only ASCII letters.
   */
  function Slugify(text: string): (r: string)
    ensures IsSlug(r)
  {
    SlugifyShape(text);
    StripTrailingDashes(StripLeadingDashes(CollapseDashes(KeepWordChars(DashSpaces(StripMarks(Trim(ToLower(text))))))))
  }

  lemma SlugifyShape(text: string)
    ensures IsSlug(StripTrailingDashes(StripLeadingDashes(CollapseDashes(KeepWordChars(DashSpaces(StripMarks(Trim(ToLower(text)))))))))
  {
    var lowered := ToLower(text);
    var trimmed := Trim(lowered);
    var unmarked := StripMarks(trimmed);
    var dashed := DashSpaces(unmarked);
    var kept := KeepWordChars(dashed);
    var collapsed := CollapseDashes(kept);
    NoUpperCarries(trimmed, lowered);
    NoUpperCarries(unmarked, trimmed);
    NoUpperCarries(dashed, unmarked);
    NoUpperCarries(kept, dashed);
    NoUpperCarries(collapsed, kept);
    assert forall i :: 0 <= i < |collapsed| ==> IsSlugChar(collapsed[i]);
    StripsKeepSlug(collapsed);
  }

  /** Characters copied from an upper-case-free string (and dashes) are upper-case-free. */
  lemma NoUpperCarries(r: string, s: string)
    requires CharsFrom(r, s)
    requires forall i :: 0 <= i < |s| ==> !IsUpperAscii(s[i])
    ensures forall i :: 0 <= i < |r| ==> !IsUpperAscii(r[i])
  {
  }

  /** Stripping the outer dashes of a dash-collapsed run of slug characters leaves a slug. */
  lemma StripsKeepSlug(c: string)
    requires forall i :: 0 <= i < |c| ==> IsSlugChar(c[i])
    requires NoDoubleDash(c)
    ensures IsSlug(StripTrailingDashes(StripLeadingDashes(c)))
  {
    StripLeadingKeepsRun(c);
    StripTrailingKeepsRun(StripLeadingDashes(c));
  }

  /** The leading-dash strip keeps slug characters and single dashes. */
  lemma StripLeadingKeepsRun(c: string)
    requires forall i :: 0 <= i < |c| ==> IsSlugChar(c[i])
    requires NoDoubleDash(c)
    ensures var lead := StripLeadingDashes(c);
      (forall i :: 0 <= i < |lead| ==> IsSlugChar(lead[i])) && NoDoubleDash(lead)
  {
    var lead := StripLeadingDashes(c);
    var k := |c| - |lead|;
    forall i | 0 <= i < |lead|
      ensures lead[i] == c[k + i]
    {
    }
  }

  /** The trailing-dash strip of a run that does not start with a dash leaves a slug. */
  lemma StripTrailingKeepsRun(lead: string)
    requires forall i :: 0 <= i < |lead| ==> IsSlugChar(lead[i])
    requires NoDoubleDash(lead)
    requires lead == [] || lead[0] != '-'
    ensures IsSlug(StripTrailingDashes(lead))
  {
    var r := StripTrailingDashes(lead);
    forall i | 0 <= i < |r|
      ensures r[i] == lead[i]
    {
    }
    if r != [] {
      assert r[0] == lead[0];
    }
  }

  // ---- one white-space run becomes one dash

  /**
   * Inside the text, a run `w` of white space between a space-free prefix `u` and a rest `v`
   * that does not start with white space turns into exactly one `-`.
   */
  lemma DashSpacesRun(u: string, w: string, v: string)
    requires NoSpaces(u)
    requires w != [] && forall i :: 0 <= i < |w| ==> IsJsSpace(w[i])
    requires v == [] || !IsJsSpace(v[0])
    ensures DashSpaces(u + w + v) == u + "-" + DashSpaces(v)
  {
    assert u + w + v == u + (w + v);
    DashSpacesOfRun(w, v);
    DashSpacesKeepsPrefix(u, w + v);
  }

  /** A prefix without white space passes through unchanged. */
  lemma {:induction false} DashSpacesKeepsPrefix(u: string, t: string)
    requires NoSpaces(u)
    ensures DashSpaces(u + t) == u + DashSpaces(t)
    decreases |u|
  {
    if u != [] {
      assert u + t == [u[0]] + (u[1..] + t);
      DashSpacesCons(u[0], u[1..] + t);
      DashSpacesKeepsPrefix(u[1..], t);
      assert [u[0]] + (u[1..] + DashSpaces(t)) == u + DashSpaces(t);
    } else {
      assert u + t == t;
    }
  }

  /** A leading run of white space becomes one `-`. */
  lemma DashSpacesOfRun(w: string, v: string)
    requires w != [] && forall i :: 0 <= i < |w| ==> IsJsSpace(w[i])
    requires v == [] || !IsJsSpace(v[0])
    ensures DashSpaces(w + v) == "-" + DashSpaces(v)
  {
    assert (w + v)[0] == w[0];
    TrimStartOfRun(w, v);
  }

  /** A character that is not white space is kept as it is. */
  lemma DashSpacesCons(c: char, t: string)
    requires !IsJsSpace(c)
    ensures DashSpaces([c] + t) == [c] + DashSpaces(t)
  {
    assert ([c] + t)[0] == c && ([c] + t)[1..] == t;
  }

  lemma {:induction false} TrimStartOfRun(w: string, v: string)
    requires forall i :: 0 <= i < |w| ==> IsJsSpace(w[i])
    requires v == [] || !IsJsSpace(v[0])
    ensures TrimStart(w + v) == v
  {
    if w == [] {
      assert w + v == v;
    } else {
      assert (w + v)[1..] == w[1..] + v;
      TrimStartOfRun(w[1..], v);
    }
  }

  // ---- slugify is idempotent: every step leaves a slug alone

  lemma ToLowerOfSlug(s: string)
    requires forall i :: 0 <= i < |s| ==> IsSlugChar(s[i])
    ensures ToLower(s) == s
  {
  }

  lemma {:induction false} StripMarksOfSlug(s: string)
    requires forall i :: 0 <= i < |s| ==> IsSlugChar(s[i])
    ensures StripMarks(s) == s
  {
    if s != [] {
      StripMarksOfSlug(s[1..]);
    }
  }

  lemma {:induction false} DashSpacesOfSlug(s: string)
    requires NoSpaces(s)
    ensures DashSpaces(s) == s
  {
    if s != [] {
      DashSpacesOfSlug(s[1..]);
    }
  }

  lemma {:induction false} KeepWordCharsOfSlug(s: string)
    requires forall i :: 0 <= i < |s| ==> IsSlugChar(s[i])
    ensures KeepWordChars(s) == s
  {
    if s != [] {
      KeepWordCharsOfSlug(s[1..]);
    }
  }

  lemma {:induction false} CollapseDashesOfSlug(s: string)
    requires NoDoubleDash(s)
    ensures CollapseDashes(s) == s
  {
    if |s| >= 2 {
      CollapseDashesOfSlug(s[1..]);
    }
  }

  /** A slug is a fixed point of `Slugify`. */
  lemma SlugifyOfSlug(s: string)
    requires IsSlug(s)
    ensures Slugify(s) == s
  {
    ToLowerOfSlug(s);
    assert NoSpaces(s);
    TrimOfNoSpaces(s);
    UnmarkedSlug(s);
  }

  /** The stages after trimming leave a slug alone. */
  lemma UnmarkedSlug(s: string)
    requires IsSlug(s)
    ensures StripTrailingDashes(StripLeadingDashes(CollapseDashes(KeepWordChars(DashSpaces(StripMarks(s)))))) == s
  {
    StripMarksOfSlug(s);
    assert NoSpaces(s);
    DashSpacesOfSlug(s);
    KeptSlug(s);
  }

  /** The stages after the white-space rewrite leave a slug alone. */
  lemma KeptSlug(s: string)
    requires IsSlug(s)
    ensures StripTrailingDashes(StripLeadingDashes(CollapseDashes(KeepWordChars(s)))) == s
  {
    KeepWordCharsOfSlug(s);
    CollapseDashesOfSlug(s);
    assert StripLeadingDashes(s) == s;
    assert StripTrailingDashes(s) == s;
  }

  /** `slugify(slugify(s)) == slugify(s)`. */
  lemma SlugifyIdempotent(s: string)
    ensures Slugify(Slugify(s)) == Slugify(s)
  {
    SlugifyOfSlug(Slugify(s));
  }

  // ---------------------------------------------------------------------------
  // getMediaType

  /** `s.split('.').pop()`: the text after the last `.`, or all of `s` when it has none. */
  function LastSegment(s: string): (r: string)
    ensures '.' !in r
    ensures |r| <= |s| && r == s[|s| - |r|..]
    ensures |r| < |s| ==> s[|s| - |r| - 1] == '.'
  {
    if s == [] then []
    else if s[|s| - 1] == '.' then []
    else LastSegment(s[..|s| - 1]) + [s[|s| - 1]]
  }

  /** `getMediaType(filename)`: the media type stored in the `tipo` column. */
  function GetMediaType(filename: string): (r: string)
  {
    ExtensionType(LastSegment(ToLower(filename)))
  }

  /** The type `getMediaType` gives a lower-cased extension. */
  function ExtensionType(ext: string): (r: string)
  {
    if ext in ["jpg", "jpeg", "png", "webp"] then "image"
    else if ext == "gif" then "gif"
    else if ext in ["mp4", "webm"] then "video"
    else "image"
  }

  /**
   * `getMediaType` always answers `image`, `gif` or `video`; `gif` and `video` exactly for their
   * extensions, so an unknown or missing extension gives `image`.
   */
  lemma MediaTypeCases(filename: string)
    ensures GetMediaType(filename) in {"image", "gif", "video"}
    ensures GetMediaType(filename) == "gif" <==> LastSegment(ToLower(filename)) == "gif"
    ensures GetMediaType(filename) == "video" <==> LastSegment(ToLower(filename)) in {"mp4", "webm"}
  {
    ExtensionTypeCases(LastSegment(ToLower(filename)));
  }

  lemma ExtensionTypeCases(ext: string)
    ensures ExtensionType(ext) in {"image", "gif", "video"}
    ensures ExtensionType(ext) == "gif" <==> ext == "gif"
    ensures ExtensionType(ext) == "video" <==> ext in {"mp4", "webm"}
  {
  }

  lemma {:induction false} LastSegmentAfterDot(a: string, b: string)
    requires '.' !in b
    ensures LastSegment(a + "." + b) == b
    decreases |b|
  {
    var s := a + "." + b;
    if b == [] {
      assert s[|s| - 1] == '.';
    } else {
      var b' := b[..|b| - 1];
      assert s[..|s| - 1] == a + "." + b';
      LastSegmentAfterDot(a, b');
      assert b == b' + [b[|b| - 1]];
    }
  }

  lemma {:induction false} LastSegmentOfLower(s: string)
    ensures LastSegment(ToLower(s)) == ToLower(LastSegment(s))
  {
    if s != [] {
      var n := |s| - 1;
      var t := ToLower(s);
      LowerSplitsLast(s);
      if s[n] == '.' {
        assert LastSegment(t) == [] && LastSegment(s) == [];
      } else {
        LastSegmentOfLower(s[..n]);
        LastSegmentStep(t);
        LastSegmentStep(s);
        ToLowerAppend(LastSegment(s[..n]), [s[n]]);
        assert [t[n]] == ToLower([s[n]]);
        assert LastSegment(t) == ToLower(LastSegment(s[..n])) + ToLower([s[n]]);
      }
    }
  }

  /** Lower-casing `s` lower-cases its front and its last character, and keeps a final `.`. */
  lemma LowerSplitsLast(s: string)
    requires s != []
    ensures ToLower(s)[..|s| - 1] == ToLower(s[..|s| - 1])
    ensures ToLower(s)[|s| - 1] == '.' <==> s[|s| - 1] == '.'
    ensures ToLower(s)[|s| - 1 ..] == ToLower([s[|s| - 1]])
  {
    var t := ToLower(s);
    assert t[..|s| - 1] == ToLower(s[..|s| - 1]);
  }

  /** A name not ending in `.` keeps its last character in its last segment. */
  lemma LastSegmentStep(s: string)
    requires s != [] && s[|s| - 1] != '.'
    ensures LastSegment(s) == LastSegment(s[..|s| - 1]) + [s[|s| - 1]]
  {
  }

  /**
   * Only the text after the last `.` matters, compared case-insensitively: two names whose
   * last segments agree up to ASCII case get the same type.
   */
  lemma MediaTypeByExtension(f: string, g: string)
    requires ToLower(LastSegment(f)) == ToLower(LastSegment(g))
    ensures GetMediaType(f) == GetMediaType(g)
  {
    LastSegmentOfLower(f);
    LastSegmentOfLower(g);
  }
}
