/**
 * `extract_evidence`, shared verbatim by the SQLi, XSS, LFI, SSTI and XXE detectors: a response
 * body longer than `maxLen` bytes is cut to its first `maxLen` bytes and followed by "...".
 * Lengths are UTF-8 byte lengths, as Rust's `str::len` and byte-range slicing use them.
 */
module Evidence {
  import opened Wrappers
  import opened Text

  /** The longest prefix of `s` whose UTF-8 encoding fits in `n` bytes. */
  function BytePrefix(s: string, n: nat): (t: string)
    ensures t <= s
    ensures Utf8Len(t) <= n
    ensures |t| < |s| ==> Utf8Len(t) + Utf8Width(s[|t|]) > n
    decreases |s|
  {
    if s == [] then []
    else if Utf8Width(s[0]) <= n then
      var rest := BytePrefix(s[1..], n - Utf8Width(s[0]));
      Utf8LenAppend([s[0]], rest);
      assert Utf8Len([s[0]]) == Utf8Width(s[0]) by { assert [s[0]][..0] == []; }
      [s[0]] + rest
    else []
  }

  /** Byte lengths of prefixes grow with the prefix. */
  lemma Utf8LenPrefix(s: string, i: nat, j: nat)
    requires i <= j <= |s|
    ensures Utf8Len(s[..i]) + (j - i) <= Utf8Len(s[..j])
    ensures j == i + 1 ==> Utf8Len(s[..j]) == Utf8Len(s[..i]) + Utf8Width(s[i])
  {
    Utf8LenAppend(s[..i], s[i..j]);
    assert s[..i] + s[i..j] == s[..j];
    if j == i + 1 {
      assert s[i..j] == [s[i]];
      assert [s[i]][..0] == [];
    }
  }

  /**
   * Byte `n` is a character boundary of `s` (some prefix encodes to exactly `n` bytes) exactly
   * when the longest prefix fitting in `n` bytes takes all `n` of them.
   */
  lemma BoundaryIff(s: string, n: nat)
    ensures (exists k | 0 <= k <= |s| :: Utf8Len(s[..k]) == n) <==> Utf8Len(BytePrefix(s, n)) == n
  {
    var t := BytePrefix(s, n);
    assert s[..|t|] == t;
    if k :| 0 <= k <= |s| && Utf8Len(s[..k]) == n {
      if k < |t| {
        Utf8LenPrefix(s, k, |t|);
      } else if k > |t| {
        Utf8LenPrefix(s, |t|, |t| + 1);
        Utf8LenPrefix(s, |t| + 1, k);
      }
    }
  }

  /**
   * `extract_evidence` as written: `&body[..max_len]` panics (None here) when byte `max_len`
   * falls inside a multi-byte character.
   */
  function EvidenceAsWritten(body: string, maxLen: nat): Option<string> {
    if Utf8Len(body) > maxLen then
      var t := BytePrefix(body, maxLen);
      if Utf8Len(t) == maxLen then Some(t + "...") else None
    else Some(body)
  }

  /** `extract_evidence` cutting at the last character boundary within `max_len` bytes. */
  function Evidence(body: string, maxLen: nat): string {
    if Utf8Len(body) > maxLen then BytePrefix(body, maxLen) + "..." else body
  }

  /** The marker appended to a cut body is three one-byte characters. */
  lemma EllipsisLen()
    ensures Utf8Len("...") == 3
  {
    Utf8LenAscii("...");
  }

  /** A body longer than the cap is cut strictly short of its end. */
  lemma CutIsProper(body: string, maxLen: nat)
    requires Utf8Len(body) > maxLen
    ensures |BytePrefix(body, maxLen)| < |body|
  {
    var t := BytePrefix(body, maxLen);
    assert |t| == |body| ==> t == body;
  }

  /**
   * The corrected evidence is the body when it fits, and otherwise a proper prefix of the body
   * followed by "...", at most `maxLen` + 3 bytes in all.
   */
  lemma EvidenceShape(body: string, maxLen: nat)
    ensures Utf8Len(body) <= maxLen ==> Evidence(body, maxLen) == body
    ensures Utf8Len(body) > maxLen ==>
      exists t :: t <= body && |t| < |body| && Evidence(body, maxLen) == t + "..."
    ensures Utf8Len(Evidence(body, maxLen)) <= maxLen + 3
  {
    if Utf8Len(body) > maxLen {
      var t := BytePrefix(body, maxLen);
      CutIsProper(body, maxLen);
      Utf8LenAppend(t, "...");
      EllipsisLen();
      assert t <= body && |t| < |body| && Evidence(body, maxLen) == t + "...";
    }
  }

  /** Wherever the code as written returns, it returns the corrected evidence. */
  lemma EvidenceAgrees(body: string, maxLen: nat)
    ensures EvidenceAsWritten(body, maxLen).Some? ==> EvidenceAsWritten(body, maxLen).value == Evidence(body, maxLen)
    ensures EvidenceAsWritten(body, maxLen).None? <==>
      Utf8Len(body) > maxLen && !(exists k | 0 <= k <= |body| :: Utf8Len(body[..k]) == maxLen)
  {
    BoundaryIff(body, maxLen);
  }

  /**
   * A body of `m` - 1 ASCII letters followed by 'é' (two bytes) is `m` + 1 bytes long and byte
   * `m` falls inside the 'é', so the code as written panics; with `m` = 300 this is any such page
   * reaching the SQLi, XSS, LFI or XXE detector, with `m` = 200 the SSTI one.
   */
  lemma EvidencePanics(m: nat)
    requires m >= 1
    ensures EvidenceAsWritten(Repeat('a', m - 1) + ['é'], m).None?
  {
    var body := Repeat('a', m - 1) + ['é'];
    Utf8LenAscii(Repeat('a', m - 1));
    Utf8LenAppend(Repeat('a', m - 1), ['é']);
    assert ['é'][..0] == [];
    assert Utf8Len(body) == m + 1;
    forall k | 0 <= k <= |body|
      ensures Utf8Len(body[..k]) != m
    {
      if k < |body| {
        assert body[..k] == Repeat('a', m - 1)[..k];
        Utf8LenAscii(body[..k]);
      } else {
        assert body[..k] == body;
      }
    }
    EvidenceAgrees(body, m);
  }

  /** The detectors' own instance: 299 letters and an 'é' with the 300-byte cap. */
  lemma EvidencePanicsAt300()
    ensures EvidenceAsWritten(Repeat('a', 299) + ['é'], 300).None?
  {
    EvidencePanics(300);
  }
}
