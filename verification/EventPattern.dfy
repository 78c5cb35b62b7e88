/** Which subscriptions an event type reaches: dotted patterns with `*` and `**`. */
module EventPattern {
  import opened Segments

  /** One pattern segment fits one type segment. */
  predicate Fits(pattern: string, segment: string) {
    pattern == "*" || pattern == segment
  }

  /** The pattern `p` accepts the dotted type `t`; `**` ends the match wherever it stands. */
  predicate Accepts(p: seq<string>, t: seq<string>) {
    if p == [] then t == []
    else if p[0] == "**" then t != []
    else t != [] && Fits(p[0], t[0]) && Accepts(p[1..], t[1..])
  }

  predicate Matches(pattern: string, eventType: string) {
    Accepts(Split(pattern, '.'), Split(eventType, '.'))
  }

  /**
   * What a match means: the segments before the first `**` fit one by one, and then either at least
   * one more type segment follows (there is a `**`) or both sides end together (there is none).
   */
  lemma {:induction false} AcceptsMeaning(p: seq<string>, t: seq<string>, k: nat)
    requires k <= |p| && "**" !in p[..k] && (k < |p| ==> p[k] == "**")
    ensures Accepts(p, t) <==>
      && (if k < |p| then |t| > k else |t| == k)
      && forall i | 0 <= i < k && i < |t| :: Fits(p[i], t[i])
  {
    if k > 0 {
      assert p[0] in p[..k];
      if t != [] {
        assert p[1..][..k - 1] == p[..k][1..];
        AcceptsMeaning(p[1..], t[1..], k - 1);
        if forall i | 0 <= i < k - 1 && i < |t[1..]| :: Fits(p[1..][i], t[1..][i]) {
          forall i | 1 <= i < k && i < |t| ensures Fits(p[i], t[i]) {
            assert Fits(p[1..][i - 1], t[1..][i - 1]);
          }
        }
        if forall i | 0 <= i < k && i < |t| :: Fits(p[i], t[i]) {
          assert Fits(p[0], t[0]);
        }
      }
    }
  }

  method MatchesPattern(pattern: string, eventType: string) returns (matched: bool)
    ensures matched == Matches(pattern, eventType)
  {
    var p, t := Split(pattern, '.'), Split(eventType, '.');
    var i := 0;
    while i < |p|
      invariant 0 <= i <= |p| && i <= |t|
      invariant Accepts(p, t) == Accepts(p[i..], t[i..])
    {
      assert p[i..][1..] == p[i + 1..];
      if p[i] == "**" {
        return |t| > i;
      }
      if i >= |t| {
        return false;
      }
      assert t[i..][1..] == t[i + 1..];
      if p[i] != "*" && p[i] != t[i] {
        return false;
      }
      i := i + 1;
    }
    return |p| == |t|;
  }
}
