/**
  `SearchValueTokens`: all prefixes of a document's tokens, so that a prefix query can be
  answered by exact lookup. Prefixes end at character boundaries; strings are character sequences.
 */
module SearchTokens {

  ghost predicate PrefixOfSome(q: string, tokens: seq<string>) {
    exists t :: t in tokens && q <= t
  }

  // A non-empty `q` is wanted iff it is a prefix of some token; the empty string only as a token.
  ghost predicate Wanted(q: string, tokens: seq<string>) {
    if q == "" then "" in tokens else PrefixOfSome(q, tokens)
  }

  ghost predicate PrefixClosed(s: set<string>) {
    forall t, q :: t in s && q <= t && q != "" ==> q in s
  }

  lemma PrefixTrans(a: string, b: string, c: string)
    requires a <= b && b <= c
    ensures a <= c
  {
  }

  /** The wanted strings are prefix-closed; this is what makes the `continue` sound. */
  lemma WantedIsClosed(t: string, q: string, tokens: seq<string>)
    requires Wanted(t, tokens) && q <= t && q != ""
    ensures Wanted(q, tokens)
  {
    var u :| u in tokens && t <= u;
    PrefixTrans(q, t, u);
  }

  lemma WantedExtend(tokens: seq<string>, j: nat, q: string)
    requires j < |tokens|
    ensures Wanted(q, tokens[..j + 1]) <==> Wanted(q, tokens[..j]) || (q <= tokens[j] && (q == "" ==> tokens[j] == ""))
  {
    assert tokens[..j + 1] == tokens[..j] + [tokens[j]];
    if PrefixOfSome(q, tokens[..j + 1]) {
      var t :| t in tokens[..j + 1] && q <= t;
      assert t in tokens[..j] || t == tokens[j];
    }
    if PrefixOfSome(q, tokens[..j]) {
      var t :| t in tokens[..j] && q <= t;
      assert t in tokens[..j + 1];
    }
    assert tokens[j] in tokens[..j + 1];
  }

  /** The collected set is exactly the wanted strings, although repeated tokens are skipped. */
  method CalculatePrefixes(tokens: seq<string>) returns (set': set<string>)
    ensures forall q :: q in set' <==> Wanted(q, tokens)
  {
    set' := {};
    var j := 0;
    while j < |tokens|
      invariant 0 <= j <= |tokens|
      invariant forall q :: q in set' <==> Wanted(q, tokens[..j])
    {
      var token := tokens[j];
      ghost var before := set';
      if token in set' {
        SkipIsSound(tokens, j, before);
        j := j + 1;
        continue;
      }
      set' := set' + {token};
      var i := 1;
      while i < |token|
        invariant 1 <= i && (token == "" ==> i == 1) && (token != "" ==> i <= |token|)
        invariant forall q :: q in set' <==> q in before || q == token || (q <= token && 0 < |q| < i)
      {
        assert forall q :: q <= token && |q| == i ==> q == token[..i];
        set' := set' + {token[..i]};
        i := i + 1;
      }
      forall q ensures q in set' <==> Wanted(q, tokens[..j + 1]) {
        WantedExtend(tokens, j, q);
        assert q <= token && |q| == |token| ==> q == token;
      }
      j := j + 1;
    }
    assert tokens[..j] == tokens;
  }

  /** A token already collected brings no new prefix, because the set is prefix-closed. */
  lemma SkipIsSound(tokens: seq<string>, j: nat, s: set<string>)
    requires j < |tokens| && tokens[j] in s
    requires forall q :: q in s <==> Wanted(q, tokens[..j])
    ensures PrefixClosed(s)
    ensures forall q :: q in s <==> Wanted(q, tokens[..j + 1])
  {
    forall t, q | t in s && q <= t && q != "" ensures q in s {
      WantedIsClosed(t, q, tokens[..j]);
    }
    forall q ensures q in s <==> Wanted(q, tokens[..j + 1]) {
      WantedExtend(tokens, j, q);
    }
  }

  // `for_each_token`: the callback's arguments, in the order it receives them.
  method ForEachToken(tokens: seq<string>, prefix: bool) returns (emitted: seq<string>)
    ensures prefix ==> forall q :: q in emitted <==> Wanted(q, tokens)
    ensures prefix ==> forall i, j :: 0 <= i < j < |emitted| ==> emitted[i] != emitted[j]
    ensures !prefix ==> emitted == tokens
  {
    emitted := [];
    if prefix {
      var all := CalculatePrefixes(tokens);
      var rest := all;
      while rest != {}
        invariant forall q :: q in all <==> q in rest || q in emitted
        invariant forall q :: q in emitted ==> q !in rest
        invariant forall i, j :: 0 <= i < j < |emitted| ==> emitted[i] != emitted[j]
        decreases rest
      {
        var q :| q in rest;
        rest := rest - {q};
        emitted := emitted + [q];
      }
    } else {
      var j := 0;
      while j < |tokens|
        invariant 0 <= j <= |tokens| && emitted == tokens[..j]
      {
        emitted := emitted + [tokens[j]];
        j := j + 1;
      }
    }
  }
}
