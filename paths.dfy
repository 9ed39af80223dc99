/**
 * The part of Python's `pathlib` (POSIX flavour) that the record manager relies on:
 * building a path from a string, `joinpath`, `name`, `parent`, `stem` and
 * `with_suffix`.
 */
module Paths {

  /** A parsed path: whether it starts at the root, and its components in order. */
  datatype Path = Path(absolute: bool, parts: seq<string>)

  /** The components `pathlib` keeps after parsing: never empty, never ".", never holding a separator. */
  predicate IsPart(s: string) {
    s != "" && s != "." && '/' !in s
  }

  /** Every component is one `pathlib` keeps. */
  predicate WellFormed(p: Path) {
    forall i | 0 <= i < |p.parts| :: IsPart(p.parts[i])
  }

  /** The text between separators, in order; one more entry than `s` has separators. */
  function Segments(s: string): (segs: seq<string>)
    ensures |segs| >= 1
    ensures forall i | 0 <= i < |segs| :: '/' !in segs[i]
    decreases |s|
  {
    if s == [] then [""]
    else
      var rest := Segments(s[1..]);
      if s[0] == '/' then [""] + rest else [[s[0]] + rest[0]] + rest[1..]
  }

  /** The text after the last separator of `s`. */
  function LastSegment(s: string): string {
    var segs := Segments(s);
    segs[|segs| - 1]
  }

  /** The segments `pathlib` keeps: empty ones (from "//" or a trailing "/") and "." are dropped. */
  function Components(segs: seq<string>): (parts: seq<string>)
    ensures forall i | 0 <= i < |parts| :: IsPart(parts[i])
  {
    if segs == [] then []
    else
      var last := segs[|segs| - 1];
      Components(segs[..|segs| - 1]) + (if IsPart(last) then [last] else [])
  }

  /** `Path(s)` */
  function Parse(s: string): (p: Path)
    ensures WellFormed(p)
  {
    Path(|s| > 0 && s[0] == '/', Components(Segments(s)))
  }

  /** `p.joinpath(q)`: an absolute `q` replaces `p`. */
  function Join(p: Path, q: Path): (r: Path)
    ensures WellFormed(p) && WellFormed(q) ==> WellFormed(r)
  {
    if q.absolute then q else Path(p.absolute, p.parts + q.parts)
  }

  /** `p.name`: the last component, or "" for a path without components. */
  function Name(p: Path): (name: string)
    ensures WellFormed(p) ==> (name == "" <==> p.parts == [])
    ensures WellFormed(p) && name != "" ==> IsPart(name)
  {
    if p.parts == [] then "" else p.parts[|p.parts| - 1]
  }

  /** `p.parent`: a path without components is its own parent. */
  function Parent(p: Path): (parent: Path)
    ensures parent.absolute == p.absolute
    ensures WellFormed(p) ==> WellFormed(parent)
  {
    if p.parts == [] then p else Path(p.absolute, p.parts[..|p.parts| - 1])
  }

  /** `name.rfind('.')` */
  function LastDot(name: string): (i: int)
    ensures -1 <= i < |name|
    ensures 0 <= i ==> name[i] == '.'
    ensures forall j | i < j < |name| :: name[j] != '.'
  {
    if name == [] then -1
    else if name[|name| - 1] == '.' then |name| - 1
    else LastDot(name[..|name| - 1])
  }

  /** A name has a suffix when its last dot is neither its first nor its last character. */
  predicate HasSuffix(name: string) {
    0 < LastDot(name) < |name| - 1
  }

  /**
   * `PurePath.stem` on a name: the name without its suffix. What it drops is
   * empty or starts at the last dot, so the stem is shorter exactly when the
   * name has a suffix.
   */
  function Stem(name: string): (stem: string)
    ensures |stem| <= |name| && stem == name[..|stem|]
    ensures |stem| < |name| <==> HasSuffix(name)
    ensures HasSuffix(name) ==> |stem| == LastDot(name) && '.' !in name[|stem| + 1..]
  {
    if HasSuffix(name) then name[..LastDot(name)] else name
  }

  /** The suffixes the manager passes to `with_suffix`: a dot, at least one more character, no separator. */
  predicate ValidSuffix(suffix: string) {
    |suffix| >= 2 && suffix[0] == '.' && '/' !in suffix
  }

  /** `p.with_suffix(suffix)`; Python raises `ValueError` on a path with an empty name. */
  function WithSuffix(p: Path, suffix: string): (q: Path)
    requires Name(p) != "" && ValidSuffix(suffix)
    ensures q.absolute == p.absolute && Parent(q) == Parent(p)
    ensures Name(q) == Stem(Name(p)) + suffix
    ensures WellFormed(p) ==> WellFormed(q)
  {
    var name := Stem(Name(p)) + suffix;
    assert name[|name| - 1] == suffix[|suffix| - 1];
    assert forall c | c in Stem(Name(p)) :: c in Name(p);
    Path(p.absolute, p.parts[..|p.parts| - 1] + [name])
  }

  /** A path with components is its parent joined with its name. */
  lemma {:induction false} ParentJoinName(p: Path)
    requires p.parts != []
    ensures Join(Parent(p), Path(false, [Name(p)])) == p
  {
    assert p.parts[..|p.parts| - 1] + [p.parts[|p.parts| - 1]] == p.parts;
  }

  lemma {:induction false} SegmentsOfPart(t: string)
    requires '/' !in t
    ensures Segments(t) == [t]
    decreases |t|
  {
    if t != [] {
      assert forall c | c in t[1..] :: c in t;
      SegmentsOfPart(t[1..]);
      assert [t[0]] + t[1..] == t;
    }
  }

  /** Text without a separator appended to a string extends its last segment only. */
  lemma {:induction false} SegmentsAppend(s: string, t: string)
    requires '/' !in t
    ensures var segs := Segments(s);
            Segments(s + t) == segs[..|segs| - 1] + [segs[|segs| - 1] + t]
    decreases |s|
  {
    if s == [] {
      assert s + t == t;
      SegmentsOfPart(t);
    } else {
      assert (s + t)[0] == s[0];
      assert (s + t)[1..] == s[1..] + t;
      SegmentsAppend(s[1..], t);
      var rest := Segments(s[1..]);
      if s[0] != '/' {
        assert [s[0]] + (rest[|rest| - 1] + t) == ([s[0]] + rest[|rest| - 1]) + t;
      }
    }
  }

  /** A string naming one component parses to exactly that relative component. */
  lemma ParseOfPart(s: string)
    requires IsPart(s)
    ensures Parse(s) == Path(false, [s])
  {
    SegmentsOfPart(s);
    assert [s][..0] == [];
    assert Components([s]) == Components([]) + [s];
    assert s[0] in s;
  }

  /**
   * Appending text without a separator to a string whose last segment is a
   * component extends the last component of the parsed path by that text.
   */
  lemma ParseAppend(s: string, t: string)
    requires IsPart(LastSegment(s)) && '/' !in t
    ensures Parse(s).parts != [] && Name(Parse(s)) == LastSegment(s)
    ensures Parse(s + t).absolute == Parse(s).absolute
    ensures Parse(s + t).parts == Parse(s).parts[..|Parse(s).parts| - 1] + [LastSegment(s) + t]
  {
    var segs := Segments(s);
    var init, last := segs[..|segs| - 1], segs[|segs| - 1];
    assert segs[..|segs| - 1] == init;
    assert Components(segs) == Components(init) + [last];
    SegmentsAppend(s, t);
    var segs' := init + [last + t];
    assert segs'[..|segs'| - 1] == init;
    assert (last + t)[0] == last[0];
    assert forall c | c in last + t :: c in last || c in t;
    assert IsPart(last + t);
    assert Components(segs') == Components(init) + [last + t];
    assert |s| > 0;
    assert (s + t)[0] == s[0];
  }

  /** Appending `suffix` to a path string whose final name has no suffix is `with_suffix(suffix)`. */
  lemma {:induction false} AppendIsWithSuffix(s: string, suffix: string)
    requires IsPart(LastSegment(s)) && !HasSuffix(LastSegment(s)) && ValidSuffix(suffix)
    ensures Name(Parse(s)) != ""
    ensures Parse(s + suffix) == WithSuffix(Parse(s), suffix)
  {
    ParseAppend(s, suffix);
  }

  /** `with_suffix` acts on the last component, so it commutes with joining a non-empty path. */
  lemma JoinWithSuffix(p: Path, q: Path, suffix: string)
    requires Name(q) != "" && ValidSuffix(suffix)
    ensures Name(Join(p, q)) == Name(q)
    ensures Join(p, WithSuffix(q, suffix)) == WithSuffix(Join(p, q), suffix)
  {
    if !q.absolute {
      var ps := p.parts + q.parts;
      assert ps[..|ps| - 1] == p.parts + q.parts[..|q.parts| - 1];
    }
  }
}
