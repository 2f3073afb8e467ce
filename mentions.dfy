/**
 * Slack user mentions in message text: the pattern `<@[A-Z0-9]+>`, a
 * search for it anywhere in the text (`re.search`), and the single
 * left-to-right pass of `re.sub(r"<@[A-Z0-9]+>\s*", "", text)` that the
 * mention handler uses to cut mentions out of the prompt.
 */
module Mentions {
  import opened Wrappers
  import opened Text

  /** `[A-Z0-9]`: the characters a user id is made of. */
  predicate IsIdChar(c: char)
  {
    'A' <= c <= 'Z' || '0' <= c <= '9'
  }

  /** The first `n` characters of `s` are one mention token `<@ID>`. */
  predicate IsToken(s: string, n: nat)
  {
    4 <= n <= |s| && s[0] == '<' && s[1] == '@' && s[n - 1] == '>' &&
    forall i :: 2 <= i < n - 1 ==> IsIdChar(s[i])
  }

  /** The length of the run of id characters at the front of `s` (the greedy `[A-Z0-9]+`). */
  function IdRun(s: string): (k: nat)
    ensures k <= |s|
    ensures forall i :: 0 <= i < k ==> IsIdChar(s[i])
    ensures k < |s| ==> !IsIdChar(s[k])
  {
    if |s| > 0 && IsIdChar(s[0]) then 1 + IdRun(s[1..]) else 0
  }

  /** The length of the match of `<@[A-Z0-9]+>` anchored at the start of `s`, if there is one. */
  function TokenLength(s: string): (r: Option<nat>)
    ensures r.Some? ==> IsToken(s, r.value)
  {
    if |s| >= 2 && s[0] == '<' && s[1] == '@' then
      var k := IdRun(s[2..]);
      if k >= 1 && 2 + k < |s| && s[2 + k] == '>' then Some(3 + k) else None
    else
      None
  }

  /** The matcher finds a token exactly when the pattern matches, and the match is unique. */
  lemma TokenLengthMatches(s: string, n: nat)
    ensures TokenLength(s) == Some(n) <==> IsToken(s, n)
  {
    if IsToken(s, n) {
      assert forall i :: 0 <= i < n - 3 ==> IsIdChar(s[2..][i]);
      assert !IsIdChar(s[2..][n - 3]);
    }
  }

  /** `re.search(r"<@[A-Z0-9]+>", s)` succeeds: a token starts somewhere in `s`. */
  ghost predicate ContainsToken(s: string)
  {
    exists i :: 0 <= i < |s| && TokenLength(s[i..]).Some?
  }

  /** The first position at or after `i` where a token starts. */
  function FindTokenFrom(s: string, i: nat): (r: Option<nat>)
    requires i <= |s|
    ensures r.Some? ==> i <= r.value < |s| && TokenLength(s[r.value..]).Some?
    ensures forall j :: i <= j < |s| && (r.None? || j < r.value) ==> TokenLength(s[j..]).None?
    decreases |s| - i
  {
    if i == |s| then None
    else if TokenLength(s[i..]).Some? then Some(i)
    else FindTokenFrom(s, i + 1)
  }

  /** `re.search(r"<@[A-Z0-9]+>", s)`: where the leftmost token starts, if any. */
  function FindToken(s: string): (r: Option<nat>)
    ensures r.Some? <==> ContainsToken(s)
    ensures r.Some? ==> r.value < |s| && TokenLength(s[r.value..]).Some?
    ensures r.Some? ==> forall j :: 0 <= j < r.value ==> TokenLength(s[j..]).None?
  {
    FindTokenFrom(s, 0)
  }

  /**
   * `re.sub(r"<@[A-Z0-9]+>\s*", "", s)`: scanning left to right, every
   * token is removed together with all the whitespace after it, and the
   * scan resumes after what was removed; any other character is kept.
   */
  function RemoveMentions(s: string): string
    decreases |s|
  {
    if |s| == 0 then []
    else
      match TokenLength(s)
      case Some(n) => RemoveMentions(StripLeading(s[n..]))
      case None => [s[0]] + RemoveMentions(s[1..])
  }

  lemma NoTokenInTail(s: string)
    requires |s| > 0 && !ContainsToken(s)
    ensures !ContainsToken(s[1..])
  {
    forall j | 0 <= j < |s| - 1 ensures TokenLength(s[1..][j..]).None? {
      assert s[1..][j..] == s[j + 1..];
    }
  }

  lemma TokenInTail(s: string)
    requires |s| > 0 && ContainsToken(s) && TokenLength(s).None?
    ensures ContainsToken(s[1..])
  {
    var i :| 0 <= i < |s| && TokenLength(s[i..]).Some?;
    assert i != 0;
    assert s[1..][i - 1..] == s[i..];
  }

  /** Text without a token passes through the substitution unchanged. */
  lemma {:induction false} RemoveMentionsKeepsTokenFree(s: string)
    requires !ContainsToken(s)
    ensures RemoveMentions(s) == s
    decreases |s|
  {
    if |s| > 0 {
      assert s[0..] == s;
      NoTokenInTail(s);
      RemoveMentionsKeepsTokenFree(s[1..]);
    }
  }

  /** The substitution never lengthens the text, and shortens it whenever it contains a token. */
  lemma {:induction false} RemoveMentionsShrinks(s: string)
    ensures |RemoveMentions(s)| <= |s|
    ensures ContainsToken(s) ==> |RemoveMentions(s)| < |s|
    decreases |s|
  {
    if |s| > 0 {
      match TokenLength(s)
      case Some(n) =>
        RemoveMentionsShrinks(StripLeading(s[n..]));
      case None =>
        RemoveMentionsShrinks(s[1..]);
        if ContainsToken(s) {
          TokenInTail(s);
        }
    }
  }

  /** The substitution is the identity exactly on text that contains no token. */
  lemma RemoveMentionsIdentityIff(s: string)
    ensures RemoveMentions(s) == s <==> !ContainsToken(s)
  {
    RemoveMentionsShrinks(s);
    if !ContainsToken(s) {
      RemoveMentionsKeepsTokenFree(s);
    }
  }

  /** A character that does not start a token is kept, and the scan moves on by one. */
  lemma RemoveMentionsKeepsChar(s: string)
    requires |s| > 0 && s[0] != '<'
    ensures RemoveMentions(s) == [s[0]] + RemoveMentions(s[1..])
  {
    assert TokenLength(s) == None;
  }

  /** Text before the first `<` cannot belong to a token, so it is kept verbatim. */
  lemma {:induction false} RemoveMentionsKeepsPrefix(a: string, b: string)
    requires '<' !in a
    ensures RemoveMentions(a + b) == a + RemoveMentions(b)
  {
    if |a| > 0 {
      var s := a + b;
      assert s[0] == a[0];
      RemoveMentionsKeepsChar(s);
      assert s[1..] == a[1..] + b;
      RemoveMentionsKeepsPrefix(a[1..], b);
      assert [a[0]] + a[1..] == a;
    } else {
      assert a + b == b;
    }
  }

  /** Where a token starts, it is removed with the whitespace after it and the scan resumes behind them. */
  lemma RemoveMentionsAtToken(s: string, n: nat)
    requires TokenLength(s) == Some(n)
    ensures RemoveMentions(s) == RemoveMentions(StripLeading(s[n..]))
  {
  }

  /** A position where no token starts keeps its character, and the scan moves on by one. */
  lemma RemoveMentionsNoMatch(s: string)
    requires |s| > 0 && TokenLength(s).None?
    ensures RemoveMentions(s) == [s[0]] + RemoveMentions(s[1..])
  {
  }

  /** A token at the front of the text is matched in full, whatever follows it. */
  lemma TokenAtFront(id: string, tail: string)
    requires |id| >= 1 && forall i :: 0 <= i < |id| ==> IsIdChar(id[i])
    ensures TokenLength(['<', '@'] + id + ['>'] + tail) == Some(|id| + 3)
  {
    var t := ['<', '@'] + id + ['>'] + tail;
    var n := |id| + 3;
    assert IsToken(t, n) by {
      forall i | 2 <= i < n - 1 ensures IsIdChar(t[i]) {
        assert t[i] == id[i - 2];
      }
    }
    TokenLengthMatches(t, n);
  }

  /** A leading mention and the whitespace after it are removed, and the scan continues after them. */
  lemma LeadingMentionRemoved(id: string, ws: string, rest: string)
    requires |id| >= 1 && forall i :: 0 <= i < |id| ==> IsIdChar(id[i])
    requires AllSpace(ws)
    requires rest == [] || !IsSpace(rest[0])
    ensures RemoveMentions(['<', '@'] + id + ['>'] + ws + rest) == RemoveMentions(rest)
  {
    var n := |id| + 3;
    var t := ['<', '@'] + id + ['>'] + (ws + rest);
    assert ['<', '@'] + id + ['>'] + ws + rest == t;
    assert t[n..] == ws + rest;
    TokenAtFront(id, ws + rest);
    StripLeadingSpaces(ws, rest);
    RemoveMentionsAtToken(t, n);
  }

  lemma IdTailHasNoOpenAngle(b: string)
    requires forall i :: 0 <= i < |b| ==> IsIdChar(b[i])
    ensures '<' !in ['@'] + b + ['>']
  {
    var rest := ['@'] + b + ['>'];
    forall i | 0 <= i < |rest| ensures rest[i] != '<' {
      if 1 <= i < |rest| - 1 {
        assert rest[i] == b[i - 1];
      }
    }
  }

  /** A complete token is found by the search. */
  lemma WholeTokenFound(b: string)
    requires |b| >= 1 && forall i :: 0 <= i < |b| ==> IsIdChar(b[i])
    ensures ContainsToken(['<', '@'] + b + ['>'])
  {
    var t := ['<', '@'] + b + ['>'];
    assert t[0..] == t;
    assert IsToken(t, |t|) by {
      forall i | 2 <= i < |t| - 1 ensures IsIdChar(t[i]) {
        assert t[i] == b[i - 2];
      }
    }
    TokenLengthMatches(t, |t|);
  }

  /**
   * The substitution is a single pass: removing an inner token can bring
   * together the pieces of a new one, which stays in the result. With ids
   * `A` and `B`, `<<@A>@B>` becomes `<@B>`.
   */
  lemma SubstitutionIsSinglePass(a: string, b: string)
    requires |a| >= 1 && forall i :: 0 <= i < |a| ==> IsIdChar(a[i])
    requires |b| >= 1 && forall i :: 0 <= i < |b| ==> IsIdChar(b[i])
    ensures RemoveMentions(['<'] + (['<', '@'] + a + ['>'] + (['@'] + b + ['>']))) == ['<', '@'] + b + ['>']
    ensures ContainsToken(['<', '@'] + b + ['>'])
  {
    var rest := ['@'] + b + ['>'];
    var token := ['<', '@'] + a + ['>'];
    var t := ['<'] + (token + rest);
    assert token + [] + rest == token + rest;
    assert ['<'] + rest == ['<', '@'] + b + ['>'];
    assert rest + [] == rest;
    assert t[1..] == token + rest;
    assert t[1] == '<';
    IdTailHasNoOpenAngle(b);
    RemoveMentionsNoMatch(t);
    LeadingMentionRemoved(a, [], rest);
    RemoveMentionsKeepsPrefix(rest, []);
    WholeTokenFound(b);
  }
}
