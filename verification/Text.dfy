/** The few string operations the program's checks rest on. */
module Text {

  predicate IsSpace(c: char)
  {
    c == ' ' || c == '\t' || c == '\n' || c == '\r'
  }

  function TrimLeft(s: string): (t: string)
    ensures forall c | c in t :: c in s
    ensures t == "" <==> forall i | 0 <= i < |s| :: IsSpace(s[i])
    ensures t != "" ==> !IsSpace(t[0]) && t[|t| - 1] == s[|s| - 1]
  {
    if s == "" then "" else if IsSpace(s[0]) then TrimLeft(s[1..]) else s
  }

  function TrimRight(s: string): (t: string)
    ensures t <= s
    ensures t == "" <==> forall i | 0 <= i < |s| :: IsSpace(s[i])
    ensures t != "" ==> !IsSpace(t[|t| - 1])
  {
    if s == "" then "" else if IsSpace(s[|s| - 1]) then TrimRight(s[..|s| - 1]) else s
  }

  /** `strings.TrimSpace`. */
  function Trim(s: string): string
  {
    TrimRight(TrimLeft(s))
  }

  /** `strings.TrimSpace(s) == ""`. */
  predicate Blank(s: string)
  {
    forall i | 0 <= i < |s| :: IsSpace(s[i])
  }

  lemma TrimEmpty(s: string)
    ensures Trim(s) == "" <==> Blank(s)
    ensures forall c | c in Trim(s) :: c in s
  {
    var left := TrimLeft(s);
    if left != "" {
      assert !IsSpace(left[0]);
    }
  }

  /** Trimming keeps a beginning that neither starts nor ends with a space. */
  lemma TrimKeepsPrefix(p: string, s: string)
    requires p != "" && p <= s && !IsSpace(p[0]) && !IsSpace(p[|p| - 1])
    ensures p <= Trim(s)
  {
    assert TrimLeft(s) == s;
    TrimRightKeepsPrefix(p, s);
  }

  lemma {:induction false} TrimRightKeepsPrefix(p: string, s: string)
    requires p != "" && p <= s && !IsSpace(p[|p| - 1])
    ensures p <= TrimRight(s)
  {
    if IsSpace(s[|s| - 1]) {
      assert |p| < |s|;
      TrimRightKeepsPrefix(p, s[..|s| - 1]);
    }
  }

  /** The number that the decimal digits stand for. */
  function Number(s: string): nat
  {
    if s == "" then 0
    else
      var last := s[|s| - 1];
      10 * Number(s[..|s| - 1]) + if IsDigit(last) then last as nat - '0' as nat else 0
  }

  predicate IsDigit(c: char)
  {
    '0' <= c <= '9'
  }

  /** Trimming takes off spaces at both ends and nothing else. */
  lemma TrimMeans(s: string)
    ensures exists i, j | 0 <= i <= j <= |s| ::
              && Trim(s) == s[i..j]
              && (forall k | 0 <= k < i || j <= k < |s| :: IsSpace(s[k]))
              && (i < j ==> !IsSpace(s[i]) && !IsSpace(s[j - 1]))
  {
    var i := LeftOf(s);
    var left := TrimLeft(s);
    var j := RightOf(left);
    assert s[i..][..j] == s[i..i + j];
    assert forall k | j <= k < |left| :: left[k] == s[i + k];
  }

  lemma {:induction false} LeftOf(s: string) returns (i: nat)
    ensures i <= |s| && TrimLeft(s) == s[i..] && forall k | 0 <= k < i :: IsSpace(s[k])
  {
    if s == "" || !IsSpace(s[0]) {
      return 0;
    }
    var n := LeftOf(s[1..]);
    i := n + 1;
    assert s[1..][n..] == s[i..];
    assert forall k | 0 < k < i :: s[k] == s[1..][k - 1];
  }

  lemma {:induction false} RightOf(s: string) returns (j: nat)
    ensures j <= |s| && TrimRight(s) == s[..j] && forall k | j <= k < |s| :: IsSpace(s[k])
  {
    if s == "" || !IsSpace(s[|s| - 1]) {
      return |s|;
    }
    j := RightOf(s[..|s| - 1]);
    assert s[..|s| - 1][..j] == s[..j];
    assert forall k | j <= k < |s| - 1 :: s[k] == s[..|s| - 1][k];
  }

  /** A file name is the beginning of the name, character by character, with an underscore for each of ten that
      are not fit for one. */
  lemma FileNameMeans(name: string)
    ensures |FileName(name)| == if |name| <= 64 then |name| else 64
    ensures forall i | 0 <= i < |FileName(name)| ::
              FileName(name)[i]
              == if name[i] in {'/', '\\', ':', '*', '?', '"', '<', '>', '|', ' '} then '_' else name[i]
  {
    var kept := if |name| > 64 then name[..64] else name;
    assert forall i | 0 <= i < |kept| :: kept[i] == name[i];
    assert forall i | 0 <= i < |FileName(name)| :: FileName(name)[i] == if Unsafe(kept[i]) then '_' else kept[i];
  }

  predicate Unsafe(c: char)
  {
    c in {'/', '\\', ':', '*', '?', '"', '<', '>', '|', ' '}
  }

  /** A display name as a file name: awkward characters replaced, at most 64 characters kept. */
  function FileName(name: string): (file: string)
    ensures |file| <= 64 && |file| <= |name|
    ensures forall c | c in file :: !Unsafe(c)
  {
    var kept := if |name| > 64 then name[..64] else name;
    seq(|kept|, i requires 0 <= i < |kept| => if Unsafe(kept[i]) then '_' else kept[i])
  }
}
