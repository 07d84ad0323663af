/**
 The count table of the n-gram trainer and a reference description of it.
 The table is a `defaultdict(int)` from token tuples to counts; here it is a
 `map` read through `Get`, where a missing key reads as 0. `NGrams` lists,
 sentence by sentence, every window training counts; `Tally` says what the
 table must hold for a given list of windows.
 */
module Counting {
  import opened Sequences
  import opened Padding

  /** A token tuple used as a key of the table. */
  type Key = seq<string>
  /** The count table. */
  type Table = map<Key, nat>

  /** Reading a key of a `defaultdict(int)`: a missing key reads as 0. */
  function Get(m: Table, k: Key): nat
  {
    if k in m then m[k] else 0
  }

  /** `m[k] += 1` on a `defaultdict(int)`: key `k` goes up by one, no other key moves. */
  function Inc(m: Table, k: Key): (m': Table)
    ensures k in m'
    ensures forall j :: Get(m', j) == if j == k then Get(m, j) + 1 else Get(m, j)
  {
    m[k := Get(m, k) + 1]
  }

  /**
   The dictionary after a plain read `m[k]` of a `defaultdict(int)`: a missing
   key is stored with 0. No key reads differently afterwards.
   */
  function Touch(m: Table, k: Key): (m': Table)
    ensures m'.Keys == m.Keys + {k}
    ensures forall j :: Get(m', j) == Get(m, j)
  {
    if k in m then m else m[k := 0]
  }

  /** A window without its last token, `w[:-1]` (the empty tuple stays empty). */
  function Prefix(w: Key): (c: Key)
    ensures |w| > 0 ==> |c| == |w| - 1
  {
    if |w| == 0 then [] else w[..|w| - 1]
  }

  /** A non-empty window is its prefix followed by its last token. */
  lemma PrefixLast(w: Key)
    requires |w| > 0
    ensures w == Prefix(w) + [Last(w)]
  {
  }

  /** Every window training reads, sentence after sentence, from the original sentences `S`. */
  function NGrams(n: nat, S: seq<seq<string>>): (ws: seq<Key>)
    requires n > 0
    ensures forall w :: w in ws ==> |w| == n
  {
    if S == [] then [] else NGrams(n, S[..|S| - 1]) + Windows(n, Pad(n, S[|S| - 1]))
  }

  /** The `(n-1)`-prefix of each window, in order. */
  function Contexts(ws: seq<Key>): (cs: seq<Key>)
    ensures |cs| == |ws|
  {
    seq(|ws|, i requires 0 <= i < |ws| => Prefix(ws[i]))
  }

  /** What the table holds for `k` after counting `ws`: windows equal to `k` plus windows whose prefix is `k`. */
  ghost function Tally(ws: seq<Key>, k: Key): nat
  {
    multiset(ws)[k] + multiset(Contexts(ws))[k]
  }

  /** The table `table` holds exactly the tally of the windows `ws`. */
  ghost predicate Tabulates(table: Table, ws: seq<Key>)
  {
    forall k :: Get(table, k) == Tally(ws, k)
  }

  /** Counting one more window adds one for the window and one for its prefix. */
  lemma TallySnoc(ws: seq<Key>, w: Key, k: Key)
    ensures Tally(ws + [w], k) == Tally(ws, k) + (if k == w then 1 else 0) + (if k == Prefix(w) then 1 else 0)
  {
    ContextsSnoc(ws, w);
  }

  /** The two increments training does for window `ws[i]` extend the tally of `ws[..i]` to `ws[..i + 1]`. */
  lemma CountWindow(t: Table, base: Table, ws: seq<Key>, i: nat)
    requires i < |ws|
    requires forall k :: Get(t, k) == Get(base, k) + Tally(ws[..i], k)
    ensures forall k :: Get(Inc(Inc(t, ws[i]), Prefix(ws[i])), k) == Get(base, k) + Tally(ws[..i + 1], k)
  {
    assert ws[..i + 1] == ws[..i] + [ws[i]];
    forall k ensures Get(Inc(Inc(t, ws[i]), Prefix(ws[i])), k) == Get(base, k) + Tally(ws[..i + 1], k) {
      TallySnoc(ws[..i], ws[i], k);
    }
  }

  /** Tallies of two runs of windows add up. */
  lemma TallyAppend(a: seq<Key>, b: seq<Key>, k: Key)
    ensures Tally(a + b, k) == Tally(a, k) + Tally(b, k)
  {
    ContextsAppend(a, b);
  }

  lemma ContextsAppend(a: seq<Key>, b: seq<Key>)
    ensures Contexts(a + b) == Contexts(a) + Contexts(b)
  {
  }

  /** The tokens that follow the context `ctx` in `ws`, one per window, in order. */
  ghost function Followers(ws: seq<Key>, ctx: Key): seq<string>
  {
    if ws == [] then []
    else
      var w := ws[|ws| - 1];
      Followers(ws[..|ws| - 1], ctx) + (if |w| > 0 && Prefix(w) == ctx then [Last(w)] else [])
  }

  /**
   Splitting the occurrences of a context by the token that follows it: the
   windows `ctx + [t]` are exactly the followers equal to `t`.
   */
  lemma {:induction false} FollowersTally(ws: seq<Key>, ctx: Key, t: string)
    requires forall w :: w in ws ==> |w| == |ctx| + 1
    ensures multiset(Followers(ws, ctx))[t] == multiset(ws)[ctx + [t]]
  {
    if ws != [] {
      var vs, w := ws[..|ws| - 1], ws[|ws| - 1];
      assert ws == vs + [w];
      assert forall v :: v in vs ==> v in ws;
      FollowersTally(vs, ctx, t);
      ExtensionOf(w, ctx, t);
      var extra := if Prefix(w) == ctx then [Last(w)] else [];
      assert Followers(ws, ctx) == Followers(vs, ctx) + extra;
      assert multiset(Followers(ws, ctx))[t] == multiset(Followers(vs, ctx))[t] + multiset(extra)[t];
      assert multiset(extra)[t] == if Prefix(w) == ctx && Last(w) == t then 1 else 0;
      assert multiset(ws)[ctx + [t]] == multiset(vs)[ctx + [t]] + (if w == ctx + [t] then 1 else 0);
    }
  }

  /** The context occurs as a prefix once per follower. */
  lemma {:induction false} FollowersLength(ws: seq<Key>, ctx: Key)
    requires forall w :: w in ws ==> |w| > 0
    ensures |Followers(ws, ctx)| == multiset(Contexts(ws))[ctx]
  {
    if ws != [] {
      var vs, w := ws[..|ws| - 1], ws[|ws| - 1];
      assert ws == vs + [w];
      assert forall v :: v in vs ==> v in ws;
      FollowersLength(vs, ctx);
      ContextsSnoc(vs, w);
      assert multiset(Contexts(ws))[ctx] == multiset(Contexts(vs))[ctx] + (if Prefix(w) == ctx then 1 else 0);
    }
  }

  /** A window one longer than `ctx` is `ctx + [t]` exactly when its prefix is `ctx` and its last token is `t`. */
  lemma ExtensionOf(w: Key, ctx: Key, t: string)
    requires |w| == |ctx| + 1
    ensures w == ctx + [t] <==> Prefix(w) == ctx && Last(w) == t
  {
    PrefixLast(w);
    if w == ctx + [t] {
      assert w[..|w| - 1] == ctx;
    }
  }

  lemma ContextsSnoc(vs: seq<Key>, w: Key)
    ensures Contexts(vs + [w]) == Contexts(vs) + [Prefix(w)]
  {
  }

  /** The sentences' tokens, each sentence closed by the end marker. */
  function Stream(S: seq<seq<string>>): (ts: seq<string>)
    ensures |ts| == TokenTotal(S) + |S|
  {
    if S == [] then [] else Stream(S[..|S| - 1]) + S[|S| - 1] + [EOS]
  }

  /** The number of tokens in all sentences together. */
  function TokenTotal(S: seq<seq<string>>): nat
  {
    if S == [] then 0 else TokenTotal(S[..|S| - 1]) + |S[|S| - 1]|
  }

  /**
   The windows of a corpus end, in order, on every original token and on one
   end marker per sentence.
   */
  lemma {:induction false} NGramsFinals(n: nat, S: seq<seq<string>>)
    requires n > 0
    ensures Finals(NGrams(n, S)) == Stream(S)
  {
    if S != [] {
      var R, s := S[..|S| - 1], S[|S| - 1];
      var a, b := NGrams(n, R), Windows(n, Pad(n, s));
      assert NGrams(n, S) == a + b;
      NGramsFinals(n, R);
      WindowsOfPad(n, s);
      FinalsAppend(a, b);
      assert Stream(S) == Stream(R) + (s + [EOS]);
    }
  }

  /** A corpus of sentences of lengths `L_i` yields `sum (L_i + 1)` windows. */
  lemma {:induction false} NGramsCount(n: nat, S: seq<seq<string>>)
    requires n > 0
    ensures |NGrams(n, S)| == TokenTotal(S) + |S|
  {
    if S != [] {
      NGramsCount(n, S[..|S| - 1]);
      WindowsOfPad(n, S[|S| - 1]);
    }
  }

  lemma FinalsAppend(a: seq<Key>, b: seq<Key>)
    requires forall w :: w in a ==> |w| > 0
    requires forall w :: w in b ==> |w| > 0
    ensures Finals(a + b) == Finals(a) + Finals(b)
  {
    assert forall w :: w in a + b ==> w in a || w in b;
  }

  /** A token of the stream is the end marker or a token of one of the sentences. */
  lemma {:induction false} StreamTokens(S: seq<seq<string>>, t: string)
    requires t in Stream(S)
    ensures t == EOS || exists i :: 0 <= i < |S| && t in S[i]
  {
    var R, s := S[..|S| - 1], S[|S| - 1];
    assert Stream(S) == Stream(R) + s + [EOS];
    if t in Stream(R) {
      StreamTokens(R, t);
      if t != EOS {
        var i :| 0 <= i < |R| && t in R[i];
        assert S[i] == R[i];
      }
    } else if t in s {
      assert S[|S| - 1] == s;
    }
  }

  /** When no sentence contains the end marker, the stream holds exactly one per sentence. */
  lemma {:induction false} StreamEnds(S: seq<seq<string>>)
    requires forall i :: 0 <= i < |S| ==> EOS !in S[i]
    ensures multiset(Stream(S))[EOS] == |S|
  {
    if S != [] {
      var R, s := S[..|S| - 1], S[|S| - 1];
      assert EOS !in s;
      StreamEnds(R);
      assert Stream(S) == Stream(R) + s + [EOS];
    }
  }

  /** The windows of `ws` whose last token is `t`, in order. */
  ghost function EndingIn(ws: seq<Key>, t: string): (es: seq<Key>)
    requires forall w :: w in ws ==> |w| > 0
    ensures forall w :: w in es ==> w in ws && Last(w) == t
  {
    if ws == [] then []
    else
      var w := ws[|ws| - 1];
      EndingIn(ws[..|ws| - 1], t) + (if Last(w) == t then [w] else [])
  }

  /** Windows ending in `t` keep their multiplicity. */
  lemma {:induction false} EndingInTally(ws: seq<Key>, t: string, k: Key)
    requires forall w :: w in ws ==> |w| > 0
    requires |k| > 0 && Last(k) == t
    ensures multiset(EndingIn(ws, t))[k] == multiset(ws)[k]
  {
    if ws != [] {
      var vs, w := ws[..|ws| - 1], ws[|ws| - 1];
      assert ws == vs + [w];
      assert forall v :: v in vs ==> v in ws;
      EndingInTally(vs, t, k);
    }
  }

  /** There are as many windows ending in `t` as final tokens equal to `t`. */
  lemma {:induction false} EndingInLength(ws: seq<Key>, t: string)
    requires forall w :: w in ws ==> |w| > 0
    ensures |EndingIn(ws, t)| == multiset(Finals(ws))[t]
  {
    if ws != [] {
      var vs, w := ws[..|ws| - 1], ws[|ws| - 1];
      assert ws == vs + [w];
      assert forall v :: v in vs ==> v in ws;
      EndingInLength(vs, t);
      assert Finals(ws) == Finals(vs) + [Last(w)];
    }
  }

  /** When no sentence contains the end marker, exactly one window per sentence ends in it. */
  lemma EndMarkers(n: nat, S: seq<seq<string>>)
    requires n > 0
    requires forall i :: 0 <= i < |S| ==> EOS !in S[i]
    ensures |EndingIn(NGrams(n, S), EOS)| == |S|
  {
    NGramsFinals(n, S);
    StreamEnds(S);
    EndingInLength(NGrams(n, S), EOS);
  }
}
