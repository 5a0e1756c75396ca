/**
 * `_style_is_bold` (lucy_notes_manager/modules/plasma_sync.py): an inline
 * CSS style, lower-cased and with its spaces removed, is bold when it says
 * "font-weight:bold", or when the text after its last "font-weight:", up
 * to the next ";", is an integer of at least 600. A weight `int()` cannot
 * read is not bold.
 */
module BoldStyle {
  import opened Wrappers
  import opened Text

  /** `s.replace(c, "")`. */
  function RemoveChar(s: string, c: char): (r: string)
    ensures c !in r && |r| <= |s|
    ensures c !in s ==> r == s
    decreases |s|
  {
    if s == [] then [] else (if s[0] == c then [] else [s[0]]) + RemoveChar(s[1..], c)
  }

  /** `style.lower().replace(" ", "")`. */
  function Squeezed(style: string): (r: string)
    ensures ' ' !in r
  {
    RemoveChar(Lower(style), ' ')
  }

  /** `sub` occurs in `s` at `j`. */
  predicate OccursAt(s: string, sub: string, j: nat) {
    j + |sub| <= |s| && s[j..j + |sub|] == sub
  }

  /** The last occurrence of `sub` that ends at or before `i`. */
  function LastBefore(s: string, sub: string, i: nat): (r: Option<nat>)
    requires i <= |s|
    ensures r.Some? ==> OccursAt(s, sub, r.value) && r.value + |sub| <= i
    ensures forall j: nat :: j + |sub| <= i && (r.None? || r.value < j) ==> !OccursAt(s, sub, j)
  {
    if i < |sub| then None
    else if s[i - |sub|..i] == sub then Some(i - |sub|)
    else LastBefore(s, sub, i - 1)
  }

  /** `s.rfind(sub)`, as an index when `sub` occurs. */
  function LastIndex(s: string, sub: string): (r: Option<nat>)
    ensures r.Some? ==> OccursAt(s, sub, r.value)
    ensures forall j: nat :: (r.None? || r.value < j) ==> !OccursAt(s, sub, j)
  {
    LastBefore(s, sub, |s|)
  }

  /** `sub in s` holds exactly when `sub` occurs somewhere. */
  lemma {:induction false} ContainsOccurs(s: string, sub: string)
    ensures Contains(s, sub) <==> exists j: nat :: OccursAt(s, sub, j)
    decreases |s|
  {
    if s != [] {
      ContainsOccurs(s[1..], sub);
      if StartsWith(s, sub) {
        assert s[0..|sub|] == s[..|sub|];
        assert OccursAt(s, sub, 0);
      }
      if Contains(s[1..], sub) {
        var j: nat :| OccursAt(s[1..], sub, j);
        assert s[j + 1..j + 1 + |sub|] == s[1..][j..j + |sub|];
        assert OccursAt(s, sub, j + 1);
      }
      if j: nat :| OccursAt(s, sub, j) {
        if j > 0 {
          assert s[1..][j - 1..j - 1 + |sub|] == s[j..j + |sub|];
          assert OccursAt(s[1..], sub, j - 1);
        } else {
          assert s[..|sub|] == s[0..|sub|];
        }
      }
    } else if sub == [] {
      assert OccursAt(s, sub, 0);
    }
  }

  lemma LastIndexFinds(s: string, sub: string)
    ensures LastIndex(s, sub).Some? <==> Contains(s, sub)
  {
    ContainsOccurs(s, sub);
  }

  const WeightKey := "font-weight:"

  /** The integer after the last "font-weight:", up to the next ";", if `int()` reads it. */
  function WeightOf(s: string): Option<int> {
    match LastIndex(s, WeightKey)
    case None => None
    case Some(idx) => ParseInt(BeforeFirst(s[idx + |WeightKey|..], ';'))
  }

  /** `_style_is_bold`. */
  function StyleIsBold(style: string): (r: bool)
    ensures r <==> || Contains(Squeezed(style), "font-weight:bold")
                   || (WeightOf(Squeezed(style)).Some? && WeightOf(Squeezed(style)).value >= 600)
  {
    var s := Squeezed(style);
    LastIndexFinds(s, WeightKey);
    if Contains(s, "font-weight:bold") then true
    else if Contains(s, WeightKey) then
      match ParseInt(BeforeFirst(s[LastIndex(s, WeightKey).value + |WeightKey|..], ';'))
      case None => false
      case Some(v) => v >= 600
    else false
  }

  /** Without any "font-weight:" a style is not bold. */
  lemma NoWeightNotBold(style: string)
    requires !Contains(Squeezed(style), WeightKey)
    ensures !StyleIsBold(style)
  {
    var s := Squeezed(style);
    ContainsOccurs(s, WeightKey);
    ContainsOccurs(s, "font-weight:bold");
    if Contains(s, "font-weight:bold") {
      var j: nat :| OccursAt(s, "font-weight:bold", j);
      assert s[j..j + |WeightKey|] == s[j..j + 16][..12];
      assert OccursAt(s, WeightKey, j);
    }
  }
}
