/** UUID strings and the substring test that debits use. */
module Uuid {
  import opened BridgeTypes

  predicate IsHex(c: char) {
    '0' <= c <= '9' || 'a' <= c <= 'f' || 'A' <= c <= 'F'
  }

  function Lower(c: char): char {
    if 'A' <= c <= 'F' then (c as int + 32) as char else c
  }

  predicate IsDash(i: int) {
    i == 8 || i == 13 || i == 18 || i == 23
  }

  /** The 36-character form, read without regard to case. */
  function Parse(s: string): Option<string> {
    if |s| == 36 && forall i :: 0 <= i < 36 ==> if IsDash(i) then s[i] == '-' else IsHex(s[i])
    then Some(seq(36, i requires 0 <= i < 36 => Lower(s[i])))
    else None
  }

  /** What uuid.New().String() prints: a well-formed UUID in lower case. */
  predicate Canonical(s: string) {
    Parse(s) == Some(s)
  }

  predicate OccursAt(s: string, part: string, i: int) {
    0 <= i <= |s| - |part| && s[i..i + |part|] == part
  }

  predicate Contains(s: string, part: string) {
    exists i :: 0 <= i <= |s| - |part| && OccursAt(s, part, i)
  }

  /** Between strings of one length, containing is being equal. */
  lemma ContainsIsEquality(s: string, part: string)
    requires |s| == |part|
    ensures Contains(s, part) <==> s == part
  {
    assert s[0..|part|] == s;
    assert OccursAt(s, part, 0) <==> s == part;
  }

  /** Containing is having the text anywhere, with anything before and after it. */
  lemma ContainsExactly(s: string, part: string)
    ensures Contains(s, part) <==> exists before, after :: s == before + part + after
  {
    if Contains(s, part) {
      var i :| 0 <= i <= |s| - |part| && OccursAt(s, part, i);
      assert s == s[..i] + part + s[i + |part|..];
    }
    if before, after :| s == before + part + after {
      assert s[|before|..|before| + |part|] == part;
      assert OccursAt(s, part, |before|);
    }
  }

  /** Two IDs are read as one exactly when they are both well formed and differ at most in the case of letters. */
  lemma ReadAlikeExactly(s: string, t: string)
    ensures Parse(s).Some? <==>
            && |s| == 36 && s[8] == '-' && s[13] == '-' && s[18] == '-' && s[23] == '-'
            && forall i :: 0 <= i < 36 && i != 8 && i != 13 && i != 18 && i != 23 ==>
                 '0' <= s[i] <= '9' || 'a' <= s[i] <= 'f' || 'A' <= s[i] <= 'F'
    ensures Parse(s).Some? && Parse(t).Some? ==>
              (Parse(s) == Parse(t) <==>
                 forall i :: 0 <= i < 36 ==>
                   || s[i] == t[i]
                   || ('A' <= s[i] <= 'F' && t[i] as int == s[i] as int + 32)
                   || ('A' <= t[i] <= 'F' && s[i] as int == t[i] as int + 32))
  {
    if Parse(s).Some? && Parse(t).Some? {
      var a, b := Parse(s).value, Parse(t).value;
      assert a == b <==> forall i :: 0 <= i < 36 ==> a[i] == b[i];
      forall i | 0 <= i < 36
        ensures a[i] == b[i] <==>
                || s[i] == t[i]
                || ('A' <= s[i] <= 'F' && t[i] as int == s[i] as int + 32)
                || ('A' <= t[i] <= 'F' && s[i] as int == t[i] as int + 32)
      {
        assert a[i] == Lower(s[i]) && b[i] == Lower(t[i]);
      }
    }
  }
}
