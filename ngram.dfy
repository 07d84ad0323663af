/**
 The unsmoothed (maximum-likelihood) n-gram language model.

 Training pads each caller-owned sentence list in place and counts, for every
 window of `n` tokens, the window itself and its `(n-1)`-token prefix in one
 table. `Count` reads that table and `Prob` divides two of its entries.
 */
module LanguageModel {
  import opened Sequences
  import opened Padding
  import opened Counting

  /** The exceptions the model raises. */
  datatype Failure = AssertionError | ZeroDivisionError

  datatype Result<T> = Ok(value: T) | Err(error: Failure)

  datatype Option<T> = None | Some(value: T)

  /** A caller-owned, mutable list of tokens. */
  class Sentence {
    var tokens: seq<string>

    constructor (tokens: seq<string>)
      ensures this.tokens == tokens
    {
      this.tokens := tokens;
    }

    /** `sent[0:0] = (n-1) * ['<s>']` followed by `sent.append('</s>')`. */
    method Delimit(n: nat)
      requires n > 0
      modifies this
      ensures tokens == Pad(n, old(tokens))
    {
      tokens := Repeat(BOS, n - 1) + tokens;
      tokens := tokens + [EOS];
    }
  }

  /** The context `prob` works with: a missing or empty `prev_tokens` is the empty list. */
  function ContextOf(prevTokens: Option<seq<string>>): (ctx: seq<string>)
    ensures prevTokens.Some? ==> ctx == prevTokens.value
    ensures prevTokens.None? ==> ctx == []
  {
    match prevTokens
    case None => []
    case Some(p) => p
  }

  /** The share of the entries of `fs` that equal `t`. */
  ghost function Share(fs: seq<string>, t: string): real
    requires |fs| > 0
  {
    multiset(fs)[t] as real / |fs| as real
  }

  class NGram {
    /** The order of the model. */
    const n: nat
    /** Counts of n-grams and of (n-1)-grams together. */
    var counts: Table
    /** The sentences training counted, as they were just before it padded them. */
    ghost var trained: seq<seq<string>>

    /** The table holds, for every key, the reference tally of the windows of the trained sentences. */
    ghost predicate Valid()
      reads this
    {
      && n > 0
      && Tabulates(counts, NGrams(n, trained))
    }

    /**
     Pads every sentence of `sents` in place and counts its windows. A list
     object that occurs several times in `sents` is padded once per occurrence,
     and each occurrence is counted as it stands at that moment.
     */
    constructor (n: nat, sents: seq<Sentence>)
      requires n > 0
      modifies sents
      ensures Valid() && this.n == n
      ensures trained == Unpadded(n, sents, old(Snapshot(sents)), |sents|)
      ensures Snapshot(sents) == Padded(n, sents, old(Snapshot(sents)), |sents|)
    {
      var table: Table;
      ghost var seen: seq<seq<string>>;
      table, seen := TrainAll(n, sents);
      this.n := n;
      counts := table;
      trained := seen;
    }

    /**
     `count(tokens)`: how often `tokens` occurred as a window, plus how often as
     the prefix of a window. Keys never counted read as 0.
     */
    function Count(tokens: seq<string>): (c: nat)
      reads this
      requires Valid()
      ensures c == multiset(NGrams(n, trained))[tokens] + multiset(Contexts(NGrams(n, trained)))[tokens]
    {
      Get(counts, tokens)
    }

    /**
     `prob(token, prev_tokens)`: the relative frequency with which `token`
     follows the context. The context must have `n - 1` tokens, and a context
     that was never seen divides by zero.
     */
    function Prob(token: string, prevTokens: Option<seq<string>>): (r: Result<real>)
      reads this
      requires Valid()
      ensures var ctx := ContextOf(prevTokens);
        && (r == Err(AssertionError) <==> |ctx| != n - 1)
        && (r == Err(ZeroDivisionError) <==> |ctx| == n - 1 && Count(ctx) == 0)
        && (r.Ok? ==>
              && |Followers(NGrams(n, trained), ctx)| > 0
              && r.value == Share(Followers(NGrams(n, trained), ctx), token)
              && 0.0 <= r.value <= 1.0)
    {
      var ctx := ContextOf(prevTokens);
      if |ctx| != n - 1 then Err(AssertionError)
      else if Get(counts, ctx) == 0 then Err(ZeroDivisionError)
      else
        RelativeFrequency(ctx, token);
        Ok(Get(counts, ctx + [token]) as real / Get(counts, ctx) as real)
    }

    /**
     A missing context and an empty one are the same to `prob`: for a model of
     order 1 both ask for a unigram, for higher orders both fail the assertion.
     */
    lemma MissingContext(t: string)
      requires Valid()
      ensures Prob(t, None) == Prob(t, Some([]))
      ensures n > 1 ==> Prob(t, None) == Err(AssertionError)
      ensures n == 1 ==> (Prob(t, None).Ok? <==> Count([]) > 0)
    {
    }

    /** The ratio `prob` computes is the share of the context's followers equal to the token. */
    lemma RelativeFrequency(ctx: Key, t: string)
      requires Valid() && |ctx| == n - 1 && Count(ctx) > 0
      ensures |Followers(NGrams(n, trained), ctx)| > 0
      ensures Count(ctx + [t]) as real / Count(ctx) as real == Share(Followers(NGrams(n, trained), ctx), t)
      ensures 0.0 <= Count(ctx + [t]) as real / Count(ctx) as real <= 1.0
    {
      ExtensionBound(ctx, t);
      CountFollowers(ctx, t);
      FractionBound(Count(ctx + [t]) as real, Count(ctx) as real);
    }

    /** A key of length `n` is never the prefix of a window, so only whole windows count for it. */
    lemma NGramsNotContexts(k: Key)
      requires Valid() && |k| == n
      ensures multiset(Contexts(NGrams(n, trained)))[k] == 0
    {
      var ws := NGrams(n, trained);
      var cs := Contexts(ws);
      forall c | c in cs ensures |c| == n - 1 {
        var i :| 0 <= i < |cs| && cs[i] == c;
        assert ws[i] in ws;
      }
    }

    /** A key of length `n - 1` is never a whole window, so only prefixes count for it. */
    lemma ContextsNotNGrams(k: Key)
      requires Valid() && |k| == n - 1
      ensures multiset(NGrams(n, trained))[k] == 0
    {
    }

    /** Followers of a context of length `n - 1` tie `Count` to the windows it extends. */
    lemma CountFollowers(ctx: Key, t: string)
      requires Valid() && |ctx| == n - 1
      ensures Count(ctx + [t]) == multiset(Followers(NGrams(n, trained), ctx))[t]
      ensures Count(ctx) == |Followers(NGrams(n, trained), ctx)|
    {
      FollowersTally(NGrams(n, trained), ctx, t);
      FollowersLength(NGrams(n, trained), ctx);
      NGramsNotContexts(ctx + [t]);
      ContextsNotNGrams(ctx);
    }

    /** An n-gram is never counted more often than the context it extends. */
    lemma ExtensionBound(ctx: Key, t: string)
      requires Valid() && |ctx| == n - 1
      ensures Count(ctx + [t]) <= Count(ctx)
    {
      CountFollowers(ctx, t);
      OccurrenceBound(Followers(NGrams(n, trained), ctx), t);
    }

    /** The counts of `ctx + [t]` for the tokens `ts`, added up. */
    ghost function ExtensionSum(ctx: Key, ts: seq<string>): nat
      reads this
      requires Valid()
    {
      if ts == [] then 0 else Count(ctx + [ts[0]]) + ExtensionSum(ctx, ts[1..])
    }

    lemma {:induction false} ExtensionSumFollowers(ctx: Key, ts: seq<string>)
      requires Valid() && |ctx| == n - 1
      ensures ExtensionSum(ctx, ts) == SumOf(ts, multiset(Followers(NGrams(n, trained), ctx)))
    {
      if ts != [] {
        CountFollowers(ctx, ts[0]);
        ExtensionSumFollowers(ctx, ts[1..]);
      }
    }

    /**
     Prefix consistency: a context of length `n - 1` is counted exactly as often
     as all its one-token extensions together. `ts` lists, without repeats,
     every token that follows the context at least once.
     */
    lemma PrefixConsistency(ctx: Key, ts: seq<string>)
      requires Valid() && |ctx| == n - 1
      requires Distinct(ts)
      requires forall t :: Count(ctx + [t]) > 0 ==> t in ts
      ensures Count(ctx) == ExtensionSum(ctx, ts)
    {
      var fs := Followers(NGrams(n, trained), ctx);
      forall f | f in fs ensures f in ts {
        CountFollowers(ctx, f);
      }
      SumCovers(ts, fs);
      ExtensionSumFollowers(ctx, ts);
      CountFollowers(ctx, "");
    }

    /** For a unigram model the empty context counts every window: one per token and one per sentence. */
    lemma UnigramContext()
      requires Valid() && n == 1
      ensures Count([]) == TokenTotal(trained) + |trained|
    {
      var ws := NGrams(n, trained);
      var cs := Contexts(ws);
      assert cs == seq(|ws|, _ => []);
      assert multiset(cs)[[]] == |cs| by {
        AllEqualOccurrences(cs, []);
      }
      NGramsCount(n, trained);
      ContextsNotNGrams([]);
    }

    /** The counts of the keys `ks`, added up. */
    ghost function CountSum(ks: seq<Key>): nat
      reads this
      requires Valid()
    {
      if ks == [] then 0 else Count(ks[0]) + CountSum(ks[1..])
    }

    lemma {:induction false} CountSumNGrams(ks: seq<Key>)
      requires Valid()
      requires forall k :: k in ks ==> |k| == n
      ensures CountSum(ks) == SumOf(ks, multiset(NGrams(n, trained)))
    {
      if ks != [] {
        assert ks[0] in ks;
        NGramsNotContexts(ks[0]);
        CountSumNGrams(ks[1..]);
      }
    }

    /**
     The counts of all n-grams add up to the number of windows: `L + 1` for
     each trained sentence of `L` tokens. `ks` lists, without repeats, every
     n-gram counted at least once.
     */
    lemma NGramTotal(ks: seq<Key>)
      requires Valid()
      requires Distinct(ks)
      requires forall k :: k in ks ==> |k| == n
      requires forall k :: |k| == n && Count(k) > 0 ==> k in ks
      ensures CountSum(ks) == TokenTotal(trained) + |trained|
    {
      var ws := NGrams(n, trained);
      NGramsCovered(ks);
      SumCovers(ks, ws);
      CountSumNGrams(ks);
      NGramsCount(n, trained);
    }

    /** Every window is counted, so a list of all counted n-grams covers the windows. */
    lemma NGramsCovered(ks: seq<Key>)
      requires Valid()
      requires forall k :: |k| == n && Count(k) > 0 ==> k in ks
      ensures forall w :: w in NGrams(n, trained) ==> w in ks
    {
      var ws := NGrams(n, trained);
      forall w | w in ws ensures w in ks {
        assert multiset(ws)[w] > 0;
      }
    }

    /**
     Every counted n-gram ends on a token of a trained sentence or on the end
     marker; never on a begin marker that padding added.
     */
    lemma FinalToken(k: Key)
      requires Valid() && |k| == n && Count(k) > 0
      ensures Last(k) == EOS || exists i :: 0 <= i < |trained| && Last(k) in trained[i]
      ensures (forall i :: 0 <= i < |trained| ==> BOS !in trained[i]) ==> Last(k) != BOS
    {
      var ws := NGrams(n, trained);
      NGramsNotContexts(k);
      var i :| 0 <= i < |ws| && ws[i] == k;
      NGramsFinals(n, trained);
      assert Finals(ws)[i] == Last(k);
      StreamTokens(trained, Last(k));
    }

    /**
     When no trained sentence contains the end marker, the n-grams ending in it
     are counted once per sentence. `ks` lists, without repeats, every such
     n-gram counted at least once.
     */
    lemma SentenceEnds(ks: seq<Key>)
      requires Valid()
      requires forall i :: 0 <= i < |trained| ==> EOS !in trained[i]
      requires Distinct(ks)
      requires forall k :: k in ks ==> |k| == n && Last(k) == EOS
      requires forall k :: |k| == n && Count(k) > 0 && Last(k) == EOS ==> k in ks
      ensures CountSum(ks) == |trained|
    {
      var ws := NGrams(n, trained);
      var es := EndingIn(ws, EOS);
      EndingCovered(ks);
      SumCovers(ks, es);
      CountSumNGrams(ks);
      EndingSum(ks, ws);
      EndMarkers(n, trained);
    }

    /** Every window ending in the end marker is counted, so a list of all such counted keys covers them. */
    lemma EndingCovered(ks: seq<Key>)
      requires Valid()
      requires forall k :: |k| == n && Count(k) > 0 && Last(k) == EOS ==> k in ks
      ensures forall w :: w in EndingIn(NGrams(n, trained), EOS) ==> w in ks
    {
      var ws := NGrams(n, trained);
      forall w | w in EndingIn(ws, EOS) ensures w in ks {
        assert w in ws;
        assert multiset(ws)[w] > 0;
      }
    }

    lemma {:induction false} EndingSum(ks: seq<Key>, ws: seq<Key>)
      requires n > 0
      requires forall w :: w in ws ==> |w| > 0
      requires forall k :: k in ks ==> |k| == n && Last(k) == EOS
      ensures SumOf(ks, multiset(EndingIn(ws, EOS))) == SumOf(ks, multiset(ws))
    {
      if ks != [] {
        assert ks[0] in ks;
        EndingInTally(ws, EOS, ks[0]);
        EndingSum(ks[1..], ws);
      }
    }

    /** The probabilities `prob(t, ctx)` of the tokens `t` in `ts`, in order. */
    ghost function Probs(ctx: Key, ts: seq<string>): (ps: seq<real>)
      reads this
      requires Valid() && |ctx| == n - 1 && Count(ctx) > 0
      ensures |ps| == |ts|
    {
      seq(|ts|, i reads this requires 0 <= i < |ts| && Valid() && |ctx| == n - 1 && Count(ctx) > 0 =>
        Prob(ts[i], Some(ctx)).value)
    }

    /**
     After a context that was seen, the probabilities of the tokens that can
     follow it add up to 1. `ts` lists, without repeats, every token that
     follows the context at least once.
     */
    lemma ProbsSumToOne(ctx: Key, ts: seq<string>)
      requires Valid() && |ctx| == n - 1 && Count(ctx) > 0
      requires Distinct(ts)
      requires forall t :: Count(ctx + [t]) > 0 ==> t in ts
      ensures Total(Probs(ctx, ts)) == 1.0
    {
      var fs := Followers(NGrams(n, trained), ctx);
      forall f | f in fs ensures f in ts {
        CountFollowers(ctx, f);
      }
      SumCovers(ts, fs);
      CountFollowers(ctx, "");
      var ps := Probs(ctx, ts);
      forall i | 0 <= i < |ts| ensures ps[i] == multiset(fs)[ts[i]] as real / |fs| as real {
        assert ps[i] == Prob(ts[i], Some(ctx)).value;
      }
      TotalShares(ps, ts, multiset(fs), |fs| as real);
      WholeFraction(SumOf(ts, multiset(fs)) as real, |fs| as real);
    }
  }

  lemma FractionBound(a: real, c: real)
    requires 0.0 <= a <= c && 0.0 < c
    ensures 0.0 <= a / c <= 1.0
  {
    assert a / c * c == a;
  }

  /** The token lists of the sentence objects `objs`, read in the current state. */
  ghost function Snapshot(objs: seq<Sentence>): (s: seq<seq<string>>)
    reads objs
    ensures |s| == |objs|
    ensures forall i :: 0 <= i < |objs| ==> s[i] == objs[i].tokens
  {
    seq(|objs|, i reads objs requires 0 <= i < |objs| => objs[i].tokens)
  }

  /** What the lists `objs`, originally `original`, hold after the first `j` were padded in turn. */
  ghost function Padded(n: nat, objs: seq<Sentence>, original: seq<seq<string>>, j: nat): (s: seq<seq<string>>)
    requires n > 0 && j <= |objs| == |original|
    ensures |s| == |objs|
  {
    seq(|objs|, i requires 0 <= i < |objs| => PadTimes(n, original[i], multiset(objs[..j])[objs[i]]))
  }

  /** Padding the list object `objs[j]` pads every position that holds that same object, and no other. */
  lemma AliasStep(n: nat, objs: seq<Sentence>, j: nat, original: seq<seq<string>>, post: seq<seq<string>>)
    requires n > 0 && j < |objs| == |original| == |post|
    requires forall i :: 0 <= i < |objs| ==>
      post[i] == if objs[i] == objs[j] then Pad(n, Padded(n, objs, original, j)[i]) else Padded(n, objs, original, j)[i]
    ensures post == Padded(n, objs, original, j + 1)
  {
    TakeSnoc(objs, j);
    var before, after := multiset(objs[..j]), multiset(objs[..j + 1]);
    assert after == before + multiset{objs[j]};
    var a := Padded(n, objs, original, j + 1);
    forall i | 0 <= i < |objs| ensures post[i] == a[i] {
      var m := before[objs[i]];
      assert Padded(n, objs, original, j)[i] == PadTimes(n, original[i], m);
      if objs[i] == objs[j] {
        assert after[objs[i]] == m + 1;
      } else {
        assert after[objs[i]] == m;
      }
    }
  }

  /** The first `j` of the lists `objs`, originally `original`, as each stood just before training padded it. */
  ghost function Unpadded(n: nat, objs: seq<Sentence>, original: seq<seq<string>>, j: nat): (s: seq<seq<string>>)
    requires n > 0 && j <= |objs| == |original|
    ensures |s| == j
  {
    seq(j, i requires 0 <= i < j => PadTimes(n, original[i], multiset(objs[..i])[objs[i]]))
  }

  lemma UnpaddedStep(n: nat, objs: seq<Sentence>, original: seq<seq<string>>, j: nat)
    requires n > 0 && j < |objs| == |original|
    ensures Unpadded(n, objs, original, j + 1) == Unpadded(n, objs, original, j) + [Padded(n, objs, original, j)[j]]
  {
  }

  /** The loop of training: pads and counts every sentence of `sents`, in order. */
  method TrainAll(n: nat, sents: seq<Sentence>) returns (table: Table, ghost seen: seq<seq<string>>)
    requires n > 0
    modifies sents
    ensures seen == Unpadded(n, sents, old(Snapshot(sents)), |sents|)
    ensures Snapshot(sents) == Padded(n, sents, old(Snapshot(sents)), |sents|)
    ensures Tabulates(table, NGrams(n, seen))
  {
    ghost var original := Snapshot(sents);
    table := map[];
    seen := [];
    var j := 0;
    while j < |sents|
      invariant 0 <= j <= |sents|
      invariant seen == Unpadded(n, sents, original, j)
      invariant Snapshot(sents) == Padded(n, sents, original, j)
      invariant Tabulates(table, NGrams(n, seen))
    {
      table, seen := TrainOne(n, sents, j, original, table, seen);
      j := j + 1;
    }
  }

  /**
   One round of the training loop: pads the list object `sents[j]` in place
   and counts the windows of the padded list into the table.
   */
  method TrainOne(n: nat, sents: seq<Sentence>, j: nat, ghost original: seq<seq<string>>, table: Table, ghost seen: seq<seq<string>>)
    returns (counted: Table, ghost seen': seq<seq<string>>)
    requires n > 0 && j < |sents| == |original|
    requires seen == Unpadded(n, sents, original, j)
    requires Snapshot(sents) == Padded(n, sents, original, j)
    requires Tabulates(table, NGrams(n, seen))
    modifies sents[j]
    ensures seen' == Unpadded(n, sents, original, j + 1)
    ensures Snapshot(sents) == Padded(n, sents, original, j + 1)
    ensures Tabulates(counted, NGrams(n, seen'))
  {
    var sent := sents[j];
    ghost var pre := Padded(n, sents, original, j);
    ghost var before := sent.tokens;
    sent.Delimit(n);
    ghost var post := Snapshot(sents);
    forall i | 0 <= i < |sents| ensures post[i] == if sents[i] == sent then Pad(n, pre[i]) else pre[i] {
      assert post[i] == sents[i].tokens;
    }
    AliasStep(n, sents, j, original, post);
    counted := CountWindows(n, sent.tokens, table);
    TrainStep(n, seen, before, table, counted);
    UnpaddedStep(n, sents, original, j);
    seen' := seen + [before];
  }

  /** At the end of training, every list was padded once per occurrence and counted as it stood at its turn. */
  lemma Trained(n: nat, sents: seq<Sentence>, original: seq<seq<string>>)
    requires n > 0 && |sents| == |original|
    ensures forall i :: 0 <= i < |sents| ==>
      Unpadded(n, sents, original, |sents|)[i] == PadTimes(n, original[i], multiset(sents[..i])[sents[i]])
    ensures forall i :: 0 <= i < |sents| ==>
      Padded(n, sents, original, |sents|)[i] == PadTimes(n, original[i], multiset(sents)[sents[i]])
  {
    assert sents[..|sents|] == sents;
  }

  /** Counting the windows of one more padded sentence keeps the table equal to the tally. */
  lemma TrainStep(n: nat, seen: seq<seq<string>>, before: seq<string>, table: Table, counted: Table)
    requires n > 0
    requires Tabulates(table, NGrams(n, seen))
    requires forall k :: Get(counted, k) == Get(table, k) + Tally(Windows(n, Pad(n, before)), k)
    ensures Tabulates(counted, NGrams(n, seen + [before]))
  {
    NGramsSnoc(n, seen, before);
    forall k ensures Get(counted, k) == Tally(NGrams(n, seen + [before]), k) {
      TallyAppend(NGrams(n, seen), Windows(n, Pad(n, before)), k);
    }
  }

  /**
   The inner loop of training over one padded sentence `p`: for every window
   `p[i:i+n]`, one more for the window and one more for its prefix.
   */
  method CountWindows(n: nat, p: seq<string>, table: Table) returns (t: Table)
    requires n > 0
    ensures forall k :: Get(t, k) == Get(table, k) + Tally(Windows(n, p), k)
  {
    t := table;
    var i := 0;
    while i < |p| - n + 1
      invariant 0 <= i <= |Windows(n, p)|
      invariant forall k :: Get(t, k) == Get(table, k) + Tally(Windows(n, p)[..i], k)
    {
      var ngram := p[i..i + n];
      assert ngram == Windows(n, p)[i];
      CountWindow(t, table, Windows(n, p), i);
      t := Inc(t, ngram);
      t := Inc(t, Prefix(ngram));
      i := i + 1;
    }
    assert Windows(n, p)[..i] == Windows(n, p);
  }

  lemma NGramsSnoc(n: nat, S: seq<seq<string>>, s: seq<string>)
    requires n > 0
    ensures NGrams(n, S + [s]) == NGrams(n, S) + Windows(n, Pad(n, s))
  {
    assert (S + [s])[..|S|] == S;
  }

  lemma TakeSnoc<T>(s: seq<T>, i: nat)
    requires i < |s|
    ensures s[..i + 1] == s[..i] + [s[i]]
  {
  }

  /** A sequence whose every entry is `x` holds `x` as many times as it is long. */
  lemma {:induction false} AllEqualOccurrences<T>(xs: seq<T>, x: T)
    requires forall i :: 0 <= i < |xs| ==> xs[i] == x
    ensures multiset(xs)[x] == |xs|
  {
    if xs != [] {
      assert xs == xs[..|xs| - 1] + [x];
      AllEqualOccurrences(xs[..|xs| - 1], x);
    }
  }

  /**
   `NGram(n, sents)`: fails on the assertion `n > 0` before touching any
   sentence; otherwise trains a model. Each list object is padded once per
   occurrence in `sents`, and each occurrence is counted as it stands at its
   turn. When no list object occurs twice, each is padded exactly once and the
   model counts the sentences as the caller passed them.
   */
  method Train(n: int, sents: seq<Sentence>) returns (r: Result<NGram>)
    modifies sents
    ensures r.Err? <==> n <= 0
    ensures r.Err? ==> r.error == AssertionError
    ensures r.Err? ==> forall i :: 0 <= i < |sents| ==> sents[i].tokens == old(sents[i].tokens)
    ensures r.Ok? ==> fresh(r.value) && r.value.Valid() && r.value.n == n && |r.value.trained| == |sents|
    ensures r.Ok? ==> forall i :: 0 <= i < |sents| ==>
      && r.value.trained[i] == PadTimes(n, old(sents[i].tokens), multiset(sents[..i])[sents[i]])
      && sents[i].tokens == PadTimes(n, old(sents[i].tokens), multiset(sents)[sents[i]])
    ensures r.Ok? && Distinct(sents) ==> forall i :: 0 <= i < |sents| ==>
      r.value.trained[i] == old(sents[i].tokens) && sents[i].tokens == Pad(n, old(sents[i].tokens))
  {
    if n <= 0 {
      return Err(AssertionError);
    }
    ghost var original := Snapshot(sents);
    var model := new NGram(n, sents);
    r := Ok(model);
    Trained(n, sents, original);
    if Distinct(sents) {
      forall i | 0 <= i < |sents| ensures
        model.trained[i] == old(sents[i].tokens) && sents[i].tokens == Pad(n, old(sents[i].tokens))
      {
        DistinctOccurrences(sents, i);
      }
    }
  }
}
