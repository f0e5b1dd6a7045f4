/**
 * The two text helpers of the utility package: shortening an error message
 * for display, and finding a dotted-quad address inside a URL the way the
 * pattern `(\d+\.\d+\.\d+\.\d+)` is searched for.
 */
module Utils {
  import opened Wrappers
  import Text

  const DEFAULT_MAX_ERROR_LENGTH: int := 50

  /**
   * `truncate_error`: Python's `message[:max_length]`, where a negative
   * bound counts from the end.
   */
  function TruncateError(message: string, maxLength: int): (r: string)
    ensures |r| <= |message| && r == message[..|r|]
    ensures maxLength >= 0 ==> |r| == if maxLength < |message| then maxLength else |message|
    ensures maxLength < 0 ==> |r| == if |message| + maxLength > 0 then |message| + maxLength else 0
  {
    if maxLength >= 0 then
      (if maxLength < |message| then message[..maxLength] else message)
    else
      (if |message| + maxLength > 0 then message[..|message| + maxLength] else "")
  }

  /** Truncating twice to the same non-negative bound is the same as once. */
  lemma TruncateIdempotent(message: string, maxLength: nat)
    ensures TruncateError(TruncateError(message, maxLength), maxLength) == TruncateError(message, maxLength)
  {
  }

  /** A short enough message is shown whole. */
  lemma ShortMessageKept(message: string)
    requires |message| <= DEFAULT_MAX_ERROR_LENGTH
    ensures TruncateError(message, DEFAULT_MAX_ERROR_LENGTH) == message
  {
  }

  // ---------------------------------------------------------------------
  // extract_ip_from_url

  /** Positions `a` up to `b` hold a non-empty run of digits. */
  predicate Digits(s: string, a: int, b: int)
  {
    0 <= a < b <= |s| && forall k :: a <= k < b ==> Text.IsDigit(s[k])
  }

  /** `s[i..j]` reads digits "." digits "." digits "." digits, the dots at `a`, `b` and `c`. */
  predicate QuadSpan(s: string, i: int, a: int, b: int, c: int, j: int)
  {
    && Digits(s, i, a) && a < |s| && s[a] == '.'
    && Digits(s, a + 1, b) && b < |s| && s[b] == '.'
    && Digits(s, b + 1, c) && c < |s| && s[c] == '.'
    && Digits(s, c + 1, j)
  }

  /** Some dotted quad starts at `i`. */
  ghost predicate QuadAt(s: string, i: int)
  {
    exists a, b, c, j :: QuadSpan(s, i, a, b, c, j)
  }

  /** The end of the run of digits starting at `i`. */
  function RunEnd(s: string, i: nat): (r: nat)
    requires i <= |s|
    ensures i <= r <= |s|
    ensures forall k :: i <= k < r ==> Text.IsDigit(s[k])
    ensures r == |s| || !Text.IsDigit(s[r])
    decreases |s| - i
  {
    if i < |s| && Text.IsDigit(s[i]) then RunEnd(s, i + 1) else i
  }

  /** The greedy match of the pattern at `i`: its dots and its end. */
  function MatchAt(s: string, i: nat): (r: Option<(nat, nat, nat, nat)>)
    requires i <= |s|
    ensures r.Some? ==> QuadSpan(s, i, r.value.0, r.value.1, r.value.2, r.value.3)
    ensures r.Some? ==> r.value.3 == |s| || !Text.IsDigit(s[r.value.3])
  {
    var a := RunEnd(s, i);
    if a == i || a >= |s| || s[a] != '.' then None
    else
      var b := RunEnd(s, a + 1);
      if b == a + 1 || b >= |s| || s[b] != '.' then None
      else
        var c := RunEnd(s, b + 1);
        if c == b + 1 || c >= |s| || s[c] != '.' then None
        else
          var j := RunEnd(s, c + 1);
          if j == c + 1 then None else Some((a, b, c, j))
  }

  /** The pattern matches at `i` exactly when a dotted quad starts there. */
  lemma MatchAtComplete(s: string, i: nat)
    requires i <= |s|
    ensures MatchAt(s, i).Some? <==> QuadAt(s, i)
  {
    if QuadAt(s, i) {
      var a, b, c, j :| QuadSpan(s, i, a, b, c, j);
      assert RunEnd(s, i) == a;
      assert RunEnd(s, a + 1) == b;
      assert RunEnd(s, b + 1) == c;
    }
  }

  /** The leftmost match at or after `i`: its start and end. */
  function SearchFrom(s: string, i: nat): (r: Option<(nat, nat)>)
    requires i <= |s|
    ensures r.Some? ==> i <= r.value.0 <= |s| && MatchAt(s, r.value.0).Some?
    ensures r.Some? ==> r.value.1 == MatchAt(s, r.value.0).value.3
    ensures r.Some? ==> forall k :: i <= k < r.value.0 ==> MatchAt(s, k).None?
    ensures r.None? <==> forall k :: i <= k <= |s| ==> MatchAt(s, k).None?
    decreases |s| - i
  {
    var m := MatchAt(s, i);
    if m.Some? then Some((i, m.value.3))
    else if i == |s| then None
    else SearchFrom(s, i + 1)
  }

  /**
   * `extract_ip_from_url`: the text of the leftmost match, its last run of
   * digits taken whole; None when the pattern matches nowhere.
   */
  function ExtractIpFromUrl(url: string): (r: Option<string>)
    ensures r.None? <==> forall k :: 0 <= k <= |url| ==> MatchAt(url, k).None?
  {
    var m := SearchFrom(url, 0);
    if m.Some? then Some(url[m.value.0..m.value.1]) else None
  }

  /** A dotted quad cut out of the text is a dotted quad from its first character to its last. */
  lemma QuadSpanSlice(t: string, i: int, a: int, b: int, c: int, j: int)
    requires QuadSpan(t, i, a, b, c, j)
    ensures QuadSpan(t[i..j], 0, a - i, b - i, c - i, j - i)
  {
    var r := t[i..j];
    assert forall k :: 0 <= k < |r| ==> r[k] == t[i + k];
  }

  /** The pattern matches somewhere exactly when a dotted quad occurs somewhere. */
  lemma ExtractIpNone(url: string)
    ensures ExtractIpFromUrl(url).None? <==> forall k :: 0 <= k <= |url| ==> !QuadAt(url, k)
  {
    forall k | 0 <= k <= |url|
      ensures MatchAt(url, k).Some? <==> QuadAt(url, k)
    {
      MatchAtComplete(url, k);
    }
  }

  /**
   * The result is cut out of the URL at the first position where a dotted
   * quad starts, and is itself a dotted quad. Octet ranges are not checked.
   */
  lemma ExtractIpLeftmost(url: string)
    requires ExtractIpFromUrl(url).Some?
    ensures exists i, j :: 0 <= i < j <= |url| && ExtractIpFromUrl(url).value == url[i..j] && QuadAt(url, i)
                           && forall k :: 0 <= k < i ==> !QuadAt(url, k)
    ensures QuadAt(ExtractIpFromUrl(url).value, 0)
  {
    var m := SearchFrom(url, 0).value;
    var i := m.0;
    var t := MatchAt(url, i).value;
    forall k | 0 <= k < i
      ensures !QuadAt(url, k)
    {
      MatchAtComplete(url, k);
    }
    MatchAtComplete(url, i);
    var r := url[i..t.3];
    assert ExtractIpFromUrl(url).value == r;
    QuadSpanSlice(url, i, t.0, t.1, t.2, t.3);
    assert QuadAt(r, 0);
  }

  /** A dotted quad placed inside a text is a dotted quad there. */
  lemma QuadSpanEmbed(before: string, ip: string, after: string, a: int, b: int, c: int)
    requires QuadSpan(ip, 0, a, b, c, |ip|)
    ensures QuadSpan(before + ip + after, |before|, a + |before|, b + |before|, c + |before|, |before| + |ip|)
  {
    var u := before + ip + after;
    assert forall k :: 0 <= k < |ip| ==> u[|before| + k] == ip[k];
  }

  /** The greedy match at the start of an embedded address ends where the address ends. */
  lemma MatchAtEmbedded(before: string, ip: string, after: string, a: int, b: int, c: int)
    requires QuadSpan(ip, 0, a, b, c, |ip|)
    requires |after| == 0 || !Text.IsDigit(after[0])
    ensures MatchAt(before + ip + after, |before|).Some?
    ensures MatchAt(before + ip + after, |before|).value.3 == |before| + |ip|
  {
    var url := before + ip + after;
    var off := |before|;
    QuadSpanEmbed(before, ip, after, a, b, c);
    MatchAtComplete(url, off);
    assert off + |ip| == |url| || url[off + |ip|] == after[0];
    assert RunEnd(url, c + off + 1) == off + |ip|;
  }

  /** The search settles on the first position where the pattern matches. */
  lemma SearchFindsFirst(s: string, i: nat)
    requires i <= |s| && MatchAt(s, i).Some?
    requires forall k :: 0 <= k < i ==> MatchAt(s, k).None?
    ensures SearchFrom(s, 0) == Some((i, MatchAt(s, i).value.3))
  {
    var r := SearchFrom(s, 0);
    assert r.Some?;
    assert r.value.0 == i;
  }

  /** An address with no digit right before or after it, and none earlier, is found whole. */
  lemma ExtractsAddress(before: string, ip: string, after: string, a: int, b: int, c: int)
    requires QuadSpan(ip, 0, a, b, c, |ip|)
    requires forall k :: 0 <= k < |before| ==> !Text.IsDigit(before[k])
    requires |after| == 0 || !Text.IsDigit(after[0])
    ensures ExtractIpFromUrl(before + ip + after) == Some(ip)
  {
    var url := before + ip + after;
    var off := |before|;
    forall k | 0 <= k < off
      ensures MatchAt(url, k).None?
    {
      assert url[k] == before[k];
    }
    MatchAtEmbedded(before, ip, after, a, b, c);
    SearchFindsFirst(url, off);
    assert url[off..off + |ip|] == ip;
  }
}
