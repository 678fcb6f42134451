/** The websocket URI derived from the service's HTTP(S) base URI. */
module WsUri {

  /** Fixed path and query template appended to the rewritten base URI; the two
      `%s` are later filled with the credentials (not part of this model). */
  const WebSocketPath: string := "/v1/websocket/?login=%s&password=%s"

  /** `target` occurs in `s` starting at index `i`. */
  predicate OccursAt(s: string, target: string, i: nat)
    requires i <= |s|
  {
    target <= s[i..]
  }

  /** `target` occurs somewhere in `s`. */
  predicate Occurs(s: string, target: string) {
    exists i: nat | i <= |s| :: OccursAt(s, target, i)
  }

  /** Java's `String.replace(target, replacement)` for a non-empty target:
      scans left to right and replaces every non-overlapping occurrence. */
  function ReplaceAll(s: string, target: string, replacement: string): (r: string)
    requires |target| > 0
    decreases |s|
  {
    if |s| == 0 then []
    else if target <= s then
      replacement + ReplaceAll(s[|target|..], target, replacement)
    else
      [s[0]] + ReplaceAll(s[1..], target, replacement)
  }

  /** Replacing by something no longer never lengthens the string, and replacing by
      something of the same length keeps its length. */
  lemma {:induction false} ReplaceAllLength(s: string, target: string, replacement: string)
    requires |target| > 0
    ensures |replacement| <= |target| ==> |ReplaceAll(s, target, replacement)| <= |s|
    ensures |replacement| == |target| ==> |ReplaceAll(s, target, replacement)| == |s|
    decreases |s|
  {
    if |s| > 0 {
      if target <= s {
        ReplaceAllLength(s[|target|..], target, replacement);
      } else {
        ReplaceAllLength(s[1..], target, replacement);
      }
    }
  }

  /** The constructor's rewrite: `https://` becomes `wss://`, then `http://`
      becomes `ws://`, then the websocket path is appended. */
  function WebSocketUri(httpUri: string): (r: string)
    ensures |r| >= |WebSocketPath| && r[|r| - |WebSocketPath|..] == WebSocketPath
  {
    ReplaceAll(ReplaceAll(httpUri, "https://", "wss://"), "http://", "ws://") + WebSocketPath
  }

  /** A prefix `q` in which no occurrence of `target` starts is copied unchanged. */
  lemma {:induction false} ReplaceAllKeepsPrefix(q: string, t: string, target: string, replacement: string)
    requires |target| > 0
    requires forall i: nat | i < |q| :: !OccursAt(q + t, target, i)
    ensures ReplaceAll(q + t, target, replacement) == q + ReplaceAll(t, target, replacement)
    decreases |q|
  {
    if |q| > 0 {
      var s := q + t;
      assert s[0..] == s;
      assert !(target <= s) by { assert !OccursAt(s, target, 0); }
      assert s[1..] == q[1..] + t;
      assert s[0] == q[0];
      assert ReplaceAll(s, target, replacement) == [q[0]] + ReplaceAll(q[1..] + t, target, replacement);
      forall i: nat | i < |q[1..]|
        ensures !OccursAt(q[1..] + t, target, i)
      {
        assert (q[1..] + t)[i..] == s[i + 1..];
        assert !OccursAt(s, target, i + 1);
      }
      ReplaceAllKeepsPrefix(q[1..], t, target, replacement);
      assert [q[0]] + q[1..] == q;
    } else {
      assert q + t == t;
    }
  }

  /** Without an occurrence of the target, replacing is the identity. */
  lemma {:induction false} ReplaceAllWithoutTarget(s: string, target: string, replacement: string)
    requires |target| > 0
    requires !Occurs(s, target)
    ensures ReplaceAll(s, target, replacement) == s
    decreases |s|
  {
    if |s| > 0 {
      assert s[0..] == s;
      assert !OccursAt(s, target, 0);
      if Occurs(s[1..], target) {
        var i: nat :| i <= |s[1..]| && OccursAt(s[1..], target, i);
        assert s[1..][i..] == s[i + 1..];
        assert OccursAt(s, target, i + 1);
      }
      ReplaceAllWithoutTarget(s[1..], target, replacement);
      assert [s[0]] + s[1..] == s;
    }
  }

  /** A URI with neither scheme anywhere in it only gets the path appended. */
  lemma PlainUriGetsPathOnly(s: string)
    requires !Occurs(s, "https://") && !Occurs(s, "http://")
    ensures WebSocketUri(s) == s + WebSocketPath
  {
    ReplaceAllWithoutTarget(s, "https://", "wss://");
    ReplaceAllWithoutTarget(s, "http://", "ws://");
  }

  /** An occurrence of the target at the front is replaced, and the scan resumes after it. */
  lemma ReplaceAllAtFront(t: string, target: string, replacement: string)
    requires |target| > 0
    ensures ReplaceAll(target + t, target, replacement) == replacement + ReplaceAll(t, target, replacement)
  {
    assert target <= target + t;
    assert (target + t)[|target|..] == t;
  }

  /** An `https://` scheme becomes `wss://`, and the rest is rewritten alone. */
  lemma {:induction false} HttpsBecomesWss(t: string)
    ensures WebSocketUri("https://" + t) == "wss://" + WebSocketUri(t)
  {
    var u := ReplaceAll(t, "https://", "wss://");
    ReplaceAllAtFront(t, "https://", "wss://");
    var s := "wss://" + u;
    forall i: nat | i < |"wss://"|
      ensures !OccursAt(s, "http://", i)
    {
      assert s[i] != 'h';
      assert s[i..][0] == s[i];
    }
    ReplaceAllKeepsPrefix("wss://", u, "http://", "ws://");
  }

  /** An `http://` scheme becomes `ws://`, and the rest is rewritten alone. */
  lemma {:induction false} HttpBecomesWs(t: string)
    ensures WebSocketUri("http://" + t) == "ws://" + WebSocketUri(t)
  {
    var s := "http://" + t;
    forall i: nat | i < |"http://"|
      ensures !OccursAt(s, "https://", i)
    {
      if i == 0 {
        assert s[4] == ':';
        if |s| >= 8 {
          assert s[0..][4] == s[4];
        }
      } else {
        assert s[i] != 'h';
        assert s[i..][0] == s[i];
      }
    }
    ReplaceAllKeepsPrefix("http://", t, "https://", "wss://");
    var u := ReplaceAll(t, "https://", "wss://");
    assert "http://" <= "http://" + u;
    assert ("http://" + u)[|"http://"|..] == u;
  }
}
