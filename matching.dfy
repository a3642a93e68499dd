/**
 * Label matching as the statement analyzer does it: a row is selected when its
 * label contains a marker phrase, ignoring case, and a cell that is not text
 * (the string accessor sees it as missing) never matches.  Among several
 * matching rows the first one is used.
 */
module Matching {
  import opened Wrappers

  /** A label cell: text, or a value the string accessor treats as missing. */
  datatype Label = Text(s: string) | NotText

  /**
   * Upper-cases a character: ASCII letters, the Latin-1 lower-case letters,
   * the precomposed Vietnamese letters of U+1EA0..U+1EF9 (where every lower-case
   * letter sits at the odd code point after its capital) and đ.
   */
  function Fold(c: char): char
  {
    if 'a' <= c <= 'z' then (c as int - 32) as char
    else if '\U{E0}' <= c <= '\U{FE}' && c != '\U{F7}' then (c as int - 32) as char
    else if '\U{1EA0}' <= c <= '\U{1EF9}' && (c as int) % 2 == 1 then (c as int - 1) as char
    else if c == '\U{111}' then '\U{110}'
    else c
  }

  lemma FoldIdempotent(c: char)
    ensures Fold(Fold(c)) == Fold(c)
  {
  }

  function FoldString(s: string): (r: string)
    ensures |r| == |s|
    ensures forall i :: 0 <= i < |s| ==> r[i] == Fold(s[i])
  {
    if s == [] then [] else [Fold(s[0])] + FoldString(s[1..])
  }

  /** Substring containment: t occurs somewhere in s. */
  predicate Contains(s: string, t: string)
    decreases |s|
  {
    t <= s || (|s| > 0 && Contains(s[1..], t))
  }

  /** The reference definition of containment: t is a prefix of some suffix of s. */
  ghost predicate OccursAt(s: string, t: string, i: int)
  {
    0 <= i <= |s| && t <= s[i..]
  }

  lemma {:induction false} ContainsIffOccurs(s: string, t: string)
    ensures Contains(s, t) <==> exists i :: OccursAt(s, t, i)
    decreases |s|
  {
    if t <= s {
      assert OccursAt(s, t, 0);
    } else if |s| == 0 {
      forall i | OccursAt(s, t, i) ensures false {
      }
    } else {
      ContainsIffOccurs(s[1..], t);
      if Contains(s[1..], t) {
        var i :| OccursAt(s[1..], t, i);
        assert s[1..][i..] == s[i + 1..];
        assert OccursAt(s, t, i + 1);
      } else {
        forall i | OccursAt(s, t, i) ensures false {
          if i != 0 {
            assert s[1..][i - 1..] == s[i..];
            assert OccursAt(s[1..], t, i - 1);
          }
        }
      }
    }
  }

  /** A marker is written in capitals, so folding it changes nothing. */
  ghost predicate IsFolded(marker: string)
  {
    FoldString(marker) == marker
  }

  /**
   * The source's `str.contains(marker, case=False, na=False)` on one cell.  The
   * markers are capitals already (IsFolded), so only the label is folded.
   */
  predicate Matches(item: Label, marker: string)
    ensures Matches(item, marker) ==> item.Text?
  {
    match item
    case Text(s) => Contains(FoldString(s), marker)
    case NotText => false
  }

  lemma MatchesIgnoresCase(s: string, marker: string)
    ensures Matches(Text(FoldString(s)), marker) <==> Matches(Text(s), marker)
  {
    forall i | 0 <= i < |s| ensures FoldString(FoldString(s))[i] == FoldString(s)[i] {
      FoldIdempotent(s[i]);
    }
    assert FoldString(FoldString(s)) == FoldString(s);
  }

  /** A string folds to t when each of its characters folds to the character of t at the same position. */
  lemma FoldsByCharacters(s: string, t: string)
    requires |s| == |t|
    requires forall i :: 0 <= i < |s| ==> Fold(s[i]) == t[i]
    ensures FoldString(s) == t
  {
  }

  /** A label that folds to a marker written in capitals matches it, whatever case the label is written in. */
  lemma MatchesWhenFoldedEqual(s: string, marker: string)
    requires IsFolded(marker) && FoldString(s) == marker
    ensures Matches(Text(s), marker)
  {
  }

  lemma {:induction false} MatchesWithinLongerLabel(prefix: string, s: string, suffix: string, marker: string)
    requires Matches(Text(s), marker)
    ensures Matches(Text(prefix + s + suffix), marker)
  {
    var f, m := FoldString(s), marker;
    var g := FoldString(prefix + s + suffix);
    ContainsIffOccurs(f, m);
    var i :| OccursAt(f, m, i);
    assert g[|prefix|..][..|f|] == f by {
      forall j | 0 <= j < |f| ensures g[|prefix|..][..|f|][j] == f[j] {
        assert (prefix + s + suffix)[|prefix| + j] == s[j];
      }
    }
    assert g[|prefix| + i..][..|m|] == m by {
      assert f[i..][..|m|] == m;
      forall j | 0 <= j < |m| ensures g[|prefix| + i..][..|m|][j] == m[j] {
        assert g[|prefix| + i + j] == f[i + j];
      }
    }
    assert OccursAt(g, m, |prefix| + i);
    ContainsIffOccurs(g, m);
  }

  ghost predicate HasMatch(labels: seq<Label>, marker: string)
  {
    exists i :: 0 <= i < |labels| && Matches(labels[i], marker)
  }

  /** k is the index of the first label that matches the marker. */
  ghost predicate IsFirstMatch(labels: seq<Label>, marker: string, k: int)
  {
    && 0 <= k < |labels|
    && Matches(labels[k], marker)
    && forall j :: 0 <= j < k ==> !Matches(labels[j], marker)
  }

  lemma FirstMatchIsUnique(labels: seq<Label>, marker: string, k: int, k': int)
    requires IsFirstMatch(labels, marker, k) && IsFirstMatch(labels, marker, k')
    ensures k == k'
  {
  }

  /** The row selection `df[mask].iloc[0]`: the first matching index, or None when the filter is empty. */
  function FirstMatch(labels: seq<Label>, marker: string): (r: Option<nat>)
    ensures r.Some? ==> r.value < |labels|
  {
    if labels == [] then None
    else if Matches(labels[0], marker) then Some(0)
    else match FirstMatch(labels[1..], marker)
      case None => None
      case Some(k) => Some(k + 1)
  }

  /** FirstMatch finds the first matching label, and finds none exactly when no label matches. */
  lemma {:induction false} FirstMatchCorrect(labels: seq<Label>, marker: string)
    ensures FirstMatch(labels, marker).Some? ==> IsFirstMatch(labels, marker, FirstMatch(labels, marker).value)
    ensures FirstMatch(labels, marker).None? <==> !HasMatch(labels, marker)
  {
    if labels != [] && !Matches(labels[0], marker) {
      FirstMatchCorrect(labels[1..], marker);
      assert forall j :: 0 < j < |labels| ==> labels[j] == labels[1..][j - 1];
    }
  }

  lemma FirstMatchFinds(labels: seq<Label>, marker: string, k: int)
    requires IsFirstMatch(labels, marker, k)
    ensures FirstMatch(labels, marker) == Some(k)
  {
    FirstMatchCorrect(labels, marker);
    FirstMatchIsUnique(labels, marker, k, FirstMatch(labels, marker).value);
  }
}
