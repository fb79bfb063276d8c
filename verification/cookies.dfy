/**
 * `getCookie`, as both the application shell and the stand-alone guard component
 * define it: split the cookie string on `;`, strip leading spaces from each
 * segment, and return the decoded text after `name=` in the first segment that
 * starts with it. `decodeURIComponent` is a parameter.
 */
module Cookies {
  import opened Text
  import opened Outcomes

  type Decoder = string -> string

  /** `while (c.charAt(0) === ' ') c = c.substring(1)`: drops leading U+0020 and nothing else. */
  function StripLeadingSpaces(c: string): (r: string)
    ensures |r| <= |c| && r == c[|c| - |r|..]
    ensures forall i :: 0 <= i < |c| - |r| ==> c[i] == ' '
    ensures r == [] || r[0] != ' '
  {
    if |c| > 0 && c[0] == ' ' then
      var r := StripLeadingSpaces(c[1..]);
      assert c[1..][|c[1..]| - |r|..] == c[|c| - |r|..];
      r
    else c
  }

  /** A segment is the one sought when, stripped, it starts with `name=` (`indexOf(nameEQ) === 0`). */
  predicate SegmentMatches(seg: string, name: string) {
    IsPrefix(name + "=", StripLeadingSpaces(seg))
  }

  /** The text after `name=` in a matching segment, before decoding. */
  function RawValue(seg: string, name: string): string
    requires SegmentMatches(seg, name)
  {
    StripLeadingSpaces(seg)[|name| + 1..]
  }

  /** The loop over the segments from index `i`: the first matching index, if any. */
  function FirstMatch(segs: seq<string>, name: string, i: nat): (r: Option<nat>)
    requires i <= |segs|
    ensures r.Some? ==> i <= r.value < |segs| && SegmentMatches(segs[r.value], name)
    ensures r.Some? ==> forall j :: i <= j < r.value ==> !SegmentMatches(segs[j], name)
    ensures r.None? <==> forall j :: i <= j < |segs| ==> !SegmentMatches(segs[j], name)
    decreases |segs| - i
  {
    if i == |segs| then None
    else if SegmentMatches(segs[i], name) then Some(i)
    else FirstMatch(segs, name, i + 1)
  }

  /** `getCookie(name)` on the cookie string `cookie`; `None` stands for `null`. */
  function GetCookie(cookie: string, name: string, decode: Decoder): (r: Option<string>)
    ensures r.None? <==> forall j :: 0 <= j < |Split(cookie, ';')| ==> !SegmentMatches(Split(cookie, ';')[j], name)
    ensures r.Some? ==> exists i: nat :: FirstMatchAt(Split(cookie, ';'), name, i)
                          && r.value == decode(RawValue(Split(cookie, ';')[i], name))
  {
    var segs := Split(cookie, ';');
    match FirstMatch(segs, name, 0)
    case None => None
    case Some(i) =>
      assert FirstMatchAt(segs, name, i);
      assert SegmentMatches(Split(cookie, ';')[i], name);
      Some(decode(RawValue(segs[i], name)))
  }

  /** Whatever the first matching segment is, its decoded value is the result. */
  lemma GetCookieAt(cookie: string, name: string, decode: Decoder, i: nat)
    requires FirstMatchAt(Split(cookie, ';'), name, i)
    ensures GetCookie(cookie, name, decode) == Some(decode(RawValue(Split(cookie, ';')[i], name)))
  {
    var segs := Split(cookie, ';');
    var m := FirstMatch(segs, name, 0);
    assert m.Some?;
    assert FirstMatchAt(segs, name, m.value);
    FirstMatchIsUnique(segs, name, i);
  }

  /** Segment `i` matches and no earlier one does. */
  predicate FirstMatchAt(segs: seq<string>, name: string, i: nat) {
    && i < |segs|
    && SegmentMatches(segs[i], name)
    && forall j :: 0 <= j < i ==> !SegmentMatches(segs[j], name)
  }

  /** There is only one first match. */
  lemma FirstMatchIsUnique(segs: seq<string>, name: string, i: nat)
    requires FirstMatchAt(segs, name, i)
    ensures forall i' :: FirstMatchAt(segs, name, i') ==> i' == i
  {
    forall i': nat | FirstMatchAt(segs, name, i') ensures i' == i {
    }
  }

  /**
   * A segment `key=value` whose key has no `=` and no leading space is the one sought
   * exactly when its key is the name: a name that is a proper prefix or suffix of the
   * key, or has the key as a proper prefix or suffix, never matches.
   */
  lemma KeyMustEqualName(key: string, value: string, name: string)
    requires NoChar(key, '=') && NoChar(name, '=')
    requires key == [] || key[0] != ' '
    ensures SegmentMatches(key + "=" + value, name) <==> key == name
  {
    var seg := key + "=" + value;
    assert seg[0] != ' ' by {
      if key == [] { assert seg[0] == '='; } else { assert seg[0] == key[0]; }
    }
    assert StripLeadingSpaces(seg) == seg;
    if SegmentMatches(seg, name) {
      var p := name + "=";
      assert seg[..|p|] == p;
      assert seg[|name|] == p[|name|] == '=';
      assert forall k :: 0 <= k < |key| ==> seg[k] == key[k];
      assert |name| >= |key|;
      assert seg[|key|] == '=';
      assert |name| == |key|;
      assert key == seg[..|key|] == p[..|name|] == name;
    }
    if key == name {
      assert seg[..|name| + 1] == name + "=";
    }
  }

  /** Leading spaces before a segment are ignored. */
  lemma {:induction false} SpacesAreStripped(spaces: string, seg: string)
    requires forall k :: 0 <= k < |spaces| ==> spaces[k] == ' '
    requires seg == [] || seg[0] != ' '
    ensures StripLeadingSpaces(spaces + seg) == seg
  {
    if |spaces| == 0 {
      assert spaces + seg == seg;
    } else {
      assert (spaces + seg)[0] == ' ';
      assert (spaces + seg)[1..] == spaces[1..] + seg;
      SpacesAreStripped(spaces[1..], seg);
    }
  }

  lemma NoSemicolonJoin(p: string, x: string)
    requires NoChar(p, ';') && NoChar(x, ';')
    ensures NoChar(p + x, ';')
  {
    forall k | 0 <= k < |p + x| ensures (p + x)[k] != ';' {
      if k < |p| { assert (p + x)[k] == p[k]; } else { assert (p + x)[k] == x[k - |p|]; }
    }
  }

  /** A cookie as the browser keeps it for the page: its name and its stored (encoded) value. */
  datatype Cookie = Cookie(name: string, value: string)

  /**
   * A cookie the application writes: a non-empty name without `=`, `;` or a leading
   * space, and a value without `;` (every writer URI-encodes the value).
   */
  predicate WellFormedCookie(c: Cookie) {
    && c.name != [] && c.name[0] != ' '
    && NoChar(c.name, '=') && NoChar(c.name, ';') && NoChar(c.value, ';')
  }

  /**
   * The browser's cookies for the page, in the order it lists them. Names are pairwise
   * different: setting a cookie again replaces the old one.
   */
  predicate Jar(jar: seq<Cookie>) {
    && (forall i :: 0 <= i < |jar| ==> WellFormedCookie(jar[i]))
    && (forall i, j :: 0 <= i < j < |jar| ==> jar[i].name != jar[j].name)
  }

  /** Entry `i` of `document.cookie`: `name=value`, after a space for every entry but the first. */
  function JarSegment(jar: seq<Cookie>, i: nat): string
    requires i < |jar|
  {
    (if i == 0 then "" else " ") + jar[i].name + "=" + jar[i].value
  }

  function JarSegments(jar: seq<Cookie>): (segs: seq<string>)
    ensures |segs| == |jar|
    ensures forall i :: 0 <= i < |jar| ==> segs[i] == JarSegment(jar, i)
  {
    seq(|jar|, i requires 0 <= i < |jar| => JarSegment(jar, i))
  }

  /** `document.cookie`: the jar's entries joined by `"; "`. */
  function CookieHeader(jar: seq<Cookie>): string {
    Join(JarSegments(jar), ';')
  }

  /** An entry is the one sought exactly when its cookie has the name, and then it reads the cookie's value. */
  lemma JarSegmentMatches(jar: seq<Cookie>, i: nat, name: string)
    requires Jar(jar) && i < |jar| && NoChar(name, '=')
    ensures SegmentMatches(JarSegment(jar, i), name) <==> jar[i].name == name
    ensures jar[i].name == name ==> RawValue(JarSegment(jar, i), name) == jar[i].value
  {
    var c := jar[i];
    assert WellFormedCookie(c);
    var key := c.name + "=" + c.value;
    var sp := if i == 0 then "" else " ";
    assert JarSegment(jar, i) == sp + key;
    assert key[0] == c.name[0];
    SpacesAreStripped(sp, key);
    KeyMustEqualName(c.name, c.value, name);
    if c.name == name {
      assert key[..|name| + 1] == name + "=";
    }
  }

  lemma JarSegmentNoSemicolon(jar: seq<Cookie>, i: nat)
    requires Jar(jar) && i < |jar|
    ensures NoChar(JarSegment(jar, i), ';')
  {
    var c := jar[i];
    assert WellFormedCookie(c);
    var sp := if i == 0 then "" else " ";
    assert NoChar(sp, ';') && NoChar("=", ';');
    NoSemicolonJoin(sp, c.name);
    NoSemicolonJoin(sp + c.name, "=");
    NoSemicolonJoin(sp + c.name + "=", c.value);
  }

  /** Splitting `document.cookie` on `;` gives back the jar's entries. */
  lemma SplitHeader(jar: seq<Cookie>)
    requires Jar(jar) && |jar| > 0
    ensures Split(CookieHeader(jar), ';') == JarSegments(jar)
  {
    var segs := JarSegments(jar);
    forall i, k | 0 <= i < |segs| && 0 <= k < |segs[i]| ensures segs[i][k] != ';' {
      JarSegmentNoSemicolon(jar, i);
    }
    SplitJoin(segs, ';');
  }

  /** `getCookie` on `document.cookie` returns the decoded value of the jar's cookie of that name, wherever it sits. */
  lemma ReadJar(jar: seq<Cookie>, k: nat, decode: Decoder)
    requires Jar(jar) && k < |jar|
    ensures GetCookie(CookieHeader(jar), jar[k].name, decode) == Some(decode(jar[k].value))
  {
    var segs := JarSegments(jar);
    var name := jar[k].name;
    assert WellFormedCookie(jar[k]);
    SplitHeader(jar);
    JarSegmentMatches(jar, k, name);
    forall j | 0 <= j < k ensures !SegmentMatches(segs[j], name) {
      JarSegmentMatches(jar, j, name);
    }
    assert FirstMatchAt(Split(CookieHeader(jar), ';'), name, k);
    GetCookieAt(CookieHeader(jar), name, decode, k);
  }

  /** A name that no cookie of the jar has reads as `null`. */
  lemma ReadJarAbsent(jar: seq<Cookie>, name: string, decode: Decoder)
    requires Jar(jar) && NoChar(name, '=')
    requires forall i :: 0 <= i < |jar| ==> jar[i].name != name
    ensures GetCookie(CookieHeader(jar), name, decode).None?
  {
    if |jar| == 0 {
      SplitNoSep(CookieHeader(jar), ';');
      assert !IsPrefix(name + "=", StripLeadingSpaces(""));
    } else {
      var segs := JarSegments(jar);
      SplitHeader(jar);
      forall j | 0 <= j < |segs| ensures !SegmentMatches(segs[j], name) {
        JarSegmentMatches(jar, j, name);
      }
    }
  }

  /** A cookie string of one `name=value` segment, after any number of spaces, yields the decoded value. */
  lemma SingleSegment(spaces: string, name: string, value: string, decode: Decoder)
    requires forall k :: 0 <= k < |spaces| ==> spaces[k] == ' '
    requires NoChar(name, '=') && (name == [] || name[0] != ' ')
    requires NoChar(name, ';')
    requires NoChar(value, ';')
    ensures GetCookie(spaces + name + "=" + value, name, decode) == Some(decode(value))
  {
    var seg := name + "=" + value;
    var cookie := spaces + name + "=" + value;
    assert cookie == spaces + seg;
    assert Split(cookie, ';') == [cookie] by {
      assert NoChar(spaces, ';') && NoChar("=", ';');
      NoSemicolonJoin(spaces, name);
      NoSemicolonJoin(spaces + name, "=");
      NoSemicolonJoin(spaces + name + "=", value);
      SplitNoSep(cookie, ';');
    }
    assert SegmentMatches(cookie, name) && RawValue(cookie, name) == value by {
      assert seg == [] || seg[0] != ' ' by {
        if name == [] { assert seg[0] == '='; } else { assert seg[0] == name[0]; }
      }
      SpacesAreStripped(spaces, seg);
      KeyMustEqualName(name, value, name);
      assert seg[..|name| + 1] == name + "=";
    }
    GetCookieAt(cookie, name, decode, 0);
  }


  /** A tab is not stripped: a segment starting with one never matches a name that does not. */
  lemma TabIsNotStripped(name: string, value: string)
    requires name == [] || name[0] != '\t'
    ensures !SegmentMatches("\t" + name + "=" + value, name)
  {
    var seg := "\t" + name + "=" + value;
    assert seg[0] == '\t';
    assert StripLeadingSpaces(seg) == seg;
    if |name| > 0 {
      assert (name + "=")[0] == name[0];
    } else {
      assert (name + "=")[0] == '=';
    }
  }

  /** When two segments carry the name, the first one wins. */
  lemma FirstSegmentWins(a: string, b: string, name: string, decode: Decoder)
    requires NoChar(a, ';')
    requires SegmentMatches(a, name)
    ensures GetCookie(a + ";" + b, name, decode) == Some(decode(RawValue(a, name)))
  {
    SplitAfterSep(a, b, ';');
    assert a + ";" + b == a + [';'] + b;
    GetCookieAt(a + ";" + b, name, decode, 0);
  }
}
