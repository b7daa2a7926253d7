/** Names of commits. */
module Git {

  predicate IsHex(s: string) {
    forall i :: 0 <= i < |s| ==> '0' <= s[i] <= '9' || 'a' <= s[i] <= 'f' || 'A' <= s[i] <= 'F'
  }

  predicate IsCommitSHA(s: string) {
    |s| == 40 && IsHex(s)
  }
}
