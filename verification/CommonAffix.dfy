/** Cutting a rendering at the text two variants share
    (engine/common/chat-auto-parser-helpers.cpp, `until_common_prefix`, `after_common_suffix`). */
module CommonAffix {
  import opened DiffSplitter

  predicate OccursAt(full: string, pat: string, i: int) {
    0 <= i <= |full| - |pat| && full[i..i + |pat|] == pat
  }

  /** First occurrence at or after `i`, `|full| + 1` when there is none (`std::string::find`). */
  function FindFrom(full: string, pat: string, i: nat): (r: nat)
    requires i <= |full| + 1
    ensures r <= |full| + 1
    ensures forall j :: i <= j < r ==> !OccursAt(full, pat, j)
    ensures r <= |full| ==> i <= r && OccursAt(full, pat, r)
    decreases |full| + 1 - i
  {
    if i > |full| then |full| + 1
    else if OccursAt(full, pat, i) then i else FindFrom(full, pat, i + 1)
  }

  /** Last occurrence at or before `i`, `-1` when there is none (`std::string::rfind`). */
  function FindBack(full: string, pat: string, i: int): (r: int)
    requires -1 <= i <= |full|
    ensures -1 <= r <= i
    ensures forall j :: r < j <= i ==> !OccursAt(full, pat, j)
    ensures r >= 0 ==> OccursAt(full, pat, r)
    decreases i + 1
  {
    if i < 0 then -1
    else if OccursAt(full, pat, i) then i else FindBack(full, pat, i - 1)
  }

  function UntilCommonPrefix(full: string, left: string, right: string): string {
    var n := CommonPrefixLen(left, right);
    var pos := FindFrom(full, left[..n], 0);
    if n == 0 || pos > |full| then "" else full[..pos]
  }

  function AfterCommonSuffix(full: string, left: string, right: string): string {
    var n := CommonSuffixLen(left, right);
    var pos := FindBack(full, left[|left| - n..], |full|);
    if n == 0 || pos < 0 then "" else full[pos + n..]
  }

  // ---- Mirror images ----

  function Reverse(s: string): (r: string)
    ensures |r| == |s| && forall i :: 0 <= i < |s| ==> r[i] == FromBack(s, i)
  {
    seq(|s|, i requires 0 <= i < |s| => FromBack(s, i))
  }

  lemma ReverseSlice(s: string, i: nat, j: nat)
    requires i <= j <= |s|
    ensures Reverse(s)[|s| - j..|s| - i] == Reverse(s[i..j])
  {
  }

  lemma ReverseTwice(s: string)
    ensures Reverse(Reverse(s)) == s
  {
  }

  lemma ReverseInjective(a: string, b: string)
    ensures Reverse(a) == Reverse(b) <==> a == b
  {
    ReverseTwice(a);
    ReverseTwice(b);
  }

  /** An occurrence at `i` is an occurrence of the mirrored pattern at the mirrored place. */
  lemma OccursMirror(full: string, pat: string, i: int)
    ensures OccursAt(Reverse(full), Reverse(pat), i) <==> OccursAt(full, pat, |full| - |pat| - i)
  {
    var k := |full| - |pat| - i;
    if 0 <= i <= |full| - |pat| {
      ReverseSlice(full, k, k + |pat|);
      ReverseInjective(full[k..k + |pat|], pat);
    }
  }

  lemma CommonMirror(left: string, right: string)
    ensures CommonPrefixLen(Reverse(left), Reverse(right)) == CommonSuffixLen(left, right)
  {
    CommonMirrorFrom(left, right, 0);
  }

  lemma {:induction false} CommonMirrorFrom(left: string, right: string, n: nat)
    requires n <= |left| && n <= |right|
    ensures CommonPrefixFrom(Reverse(left), Reverse(right), n) == CommonSuffixFrom(left, right, n)
    decreases |left| - n
  {
    if n < |left| && n < |right| && FromBack(left, n) == FromBack(right, n) {
      CommonMirrorFrom(left, right, n + 1);
    }
  }

  /** Last-occurrence search is first-occurrence search in the mirror. */
  lemma FindMirror(full: string, pat: string)
    requires pat != []
    ensures var first, last := FindFrom(Reverse(full), Reverse(pat), 0), FindBack(full, pat, |full|);
            first == if last < 0 then |full| + 1 else |full| - |pat| - last
  {
    hide Reverse, FindFrom, FindBack, OccursAt;
    var first, last := FindFrom(Reverse(full), Reverse(pat), 0), FindBack(full, pat, |full|);
    if last >= 0 {
      OccursMirror(full, pat, |full| - |pat| - last);
      OccursInside(full, pat, last);
    }
    if first <= |full| {
      OccursMirror(full, pat, first);
      OccursInside(Reverse(full), Reverse(pat), first);
    }
  }

  lemma OccursInside(full: string, pat: string, i: int)
    requires OccursAt(full, pat, i)
    ensures 0 <= i <= |full| - |pat|
  {
  }

  lemma MirrorTail(full: string, k: nat)
    requires k <= |full|
    ensures full[k..] == Reverse(Reverse(full)[..|full| - k])
  {
  }

  lemma MirrorPattern(left: string, n: nat)
    requires n <= |left|
    ensures Reverse(left)[..n] == Reverse(left[|left| - n..])
  {
  }

  lemma MirrorOfNothing()
    ensures Reverse("") == ""
  {
  }

  /** `after_common_suffix` is the mirror image of `until_common_prefix`. */
  lemma AfterIsMirroredUntil(full: string, left: string, right: string)
    ensures AfterCommonSuffix(full, left, right) ==
            Reverse(UntilCommonPrefix(Reverse(full), Reverse(left), Reverse(right)))
  {
    hide Reverse, FindFrom, FindBack, OccursAt, CommonPrefixLen, CommonSuffixLen;
    var n := CommonSuffixLen(left, right);
    CommonMirror(left, right);
    MirrorPattern(left, n);
    MirrorOfNothing();
    if n != 0 {
      var pat := left[|left| - n..];
      FindMirror(full, pat);
      var pos := FindBack(full, pat, |full|);
      if pos >= 0 {
        OccursInside(full, pat, pos);
        MirrorTail(full, pos + n);
      }
    }
  }

  /** What is cut off is what the header promises: the text before the first occurrence. */
  lemma UntilIsFirst(full: string, left: string, right: string)
    ensures var n := CommonPrefixLen(left, right);
            var r := UntilCommonPrefix(full, left, right);
            if n > 0 && exists i :: OccursAt(full, left[..n], i)
            then OccursAt(full, left[..n], |r|) && r == full[..|r|]
                 && forall j :: 0 <= j < |r| ==> !OccursAt(full, left[..n], j)
            else r == ""
  {
    var n := CommonPrefixLen(left, right);
    var pos := FindFrom(full, left[..n], 0);
    if i :| OccursAt(full, left[..n], i) {
      assert pos <= i;
    }
  }

  // ---- The code ----

  method UntilPrefix(full: string, left: string, right: string) returns (r: string)
    ensures r == UntilCommonPrefix(full, left, right)
  {
    var n := CommonPrefixLength(left, right);
    if n == 0 {
      return "";
    }
    var pos := FindFrom(full, left[..n], 0);
    if pos > |full| {
      return "";
    }
    r := full[..pos];
  }

  method AfterSuffix(full: string, left: string, right: string) returns (r: string)
    ensures r == AfterCommonSuffix(full, left, right)
    ensures r == Reverse(UntilCommonPrefix(Reverse(full), Reverse(left), Reverse(right)))
  {
    hide Reverse, UntilCommonPrefix, FindBack, CommonSuffixLen;
    AfterIsMirroredUntil(full, left, right);
    var n := CommonSuffixLength(left, right);
    if n == 0 {
      return "";
    }
    var pos := FindBack(full, left[|left| - n..], |full|);
    if pos < 0 {
      return "";
    }
    r := full[pos + n..];
  }
}
