# Unsmoothed n-gram language model

This project models the `NGram` class of `languagemodeling/ngram.py` in Dafny. The class is a maximum-likelihood n-gram language model, and it does three things:

- **Training.** The constructor `NGram(n, sents)` asserts `n > 0`.
  - It pads every caller-owned sentence list in place: `n - 1` begin markers `<s>` go in front and one end marker `</s>` goes at the end.
  - It then slides a window of `n` tokens across the padded list.
  - For each window it adds one to the count of the window and one to the count of the window's `(n-1)`-token prefix. Both counts live in a single `defaultdict(int)`.
- **`count(tokens)`** reads that table. A key that was never counted reads as 0.
- **`prob(token, prev_tokens)`** works as follows:
  - A missing or empty context becomes `[]`.
  - It asserts that the context has `n - 1` tokens.
  - It returns `count(context + [token]) / count(context)`.

The Dafny files:

- `padding.dfy` (module `Padding`) covers delimiting (`Pad`) and the window slide (`Windows`).
- `counting.dfy` (module `Counting`) models the table as a `map` read through `Get` and incremented through `Inc`. It also holds the reference description of what training counts:
  - `NGrams(n, S)` lists every window of the padded sentences `S`;
  - `Tally` gives each key's multiplicity among windows and prefixes;
  - `Tabulates(table, ws)` says the table matches that tally for every key.
- `ngram.dfy` (module `LanguageModel`) holds the object model:
  - A `Sentence` is the caller's mutable token list. `Sentence.Delimit` pads it in place.
  - `NGram` is a class with the order `n`, the table `counts`, and a ghost record `trained` of the sentences as they stood just before they were padded. Its invariant `Valid()` says that the table tabulates the windows of `trained`.
  - `TrainAll`, `TrainOne` and `CountWindows` are the outer and inner training loops.
  - `Train` is the whole call `NGram(n, sents)`, including its assertion on `n`.
  - `Count` and `Prob` are functions over the table. `Prob` returns a `Result`: `AssertionError` models the failed assertion and `ZeroDivisionError` models division by a zero count.
  - The training loop goes through the caller's list of sentence objects. If the same list object occurs twice in it, the object is padded twice, and its second occurrence is counted with the first padding already in place. The model keeps this aliasing: `Padded` and `Unpadded` state what each position holds after and before training.
- `sequences.dfy` (module `Sequences`) holds generic facts about sums over multisets and reals.

Three behaviours of the code are worth stating plainly, because the model keeps them:

- Delimiting mutates the caller's lists in place, and a list passed twice is padded twice.
- `count` returns 0 for a key of any length, not only for keys of length `n` or `n - 1`.
- `prob` raises `ZeroDivisionError` on a context that was never counted.

## Model

| member | source | states |
|---|---|---|
| LanguageModel.Train | languagemodeling/ngram.py:7-26 | Fails with `AssertionError` exactly when `n <= 0`, and then leaves every sentence unchanged. Otherwise it returns a fresh valid model of order `n` with one trained entry per sentence. Each list is padded once per occurrence, and each occurrence is counted as it stood at its turn. Without aliasing, every sentence is padded exactly once and counted as the caller passed it. |
| LanguageModel.NGram.constructor | languagemodeling/ngram.py:13-26 | After construction the table equals the tally of windows and prefixes of all padded sentences, in order, and the lists hold their padded contents. |
| LanguageModel.TrainAll | languagemodeling/ngram.py:16-26 | The training loop leaves each list padded once per occurrence. The table it builds tabulates the windows of every sentence as it stood at its turn. |
| LanguageModel.TrainOne | languagemodeling/ngram.py:16-26 | One round pads list `j` in place. This affects every position aliasing it and no other list. The round then adds that sentence's windows to the table and keeps the loop invariant. |
| LanguageModel.AliasStep | languagemodeling/ngram.py:16-19 | Padding one list object pads exactly the positions that hold that object. |
| LanguageModel.TrainStep | languagemodeling/ngram.py:16-26 | Adding one padded sentence's windows to a table that tabulates the earlier sentences gives a table that tabulates all of them. |
| LanguageModel.CountWindows | languagemodeling/ngram.py:21-26 | The inner loop raises every key by exactly its number of occurrences among the windows of the padded sentence and their prefixes. |
| LanguageModel.Sentence.Delimit | languagemodeling/ngram.py:18-19 | The list becomes `n - 1` begin markers, then its old tokens, then one end marker. |
| Padding.Pad | languagemodeling/ngram.py:18-19 | A padded sentence is `n` tokens longer and holds `n - 1` begin markers, then the original tokens in order, then the end marker. |
| Padding.UnpadPad | languagemodeling/ngram.py:18-19 | Padding loses nothing: stripping the markers gives the original sentence back. |
| Padding.WindowsOfPad | languagemodeling/ngram.py:18-22 | A sentence of `L` tokens has `L + 1` windows. Their last tokens are the sentence's tokens followed by the end marker, so no window ends on a leading pad. |
| Counting.Inc | languagemodeling/ngram.py:24-26 | `counts[k] += 1` on a `defaultdict(int)` raises key `k` by one and leaves every other key as it was. |
| Counting.Touch | languagemodeling/ngram.py:14 | A read of a missing key of the `defaultdict` stores it with 0, and no key reads differently afterwards. |
| Counting.CountWindow | languagemodeling/ngram.py:22-26 | The two increments of one window extend the tally by that window and its prefix. |
| Counting.NGramsCount | languagemodeling/ngram.py:16-22 | A corpus of sentences of lengths `L_i` yields `sum (L_i + 1)` windows. |
| Counting.NGramsFinals | languagemodeling/ngram.py:16-22 | The windows of the corpus end, in order, on every original token and on one end marker per sentence. |
| Counting.StreamTokens | languagemodeling/ngram.py:18-19 | Every final token is an end marker or a token of some sentence. |
| Counting.EndMarkers | languagemodeling/ngram.py:18-22 | When no sentence contains the end marker, exactly one window per sentence ends in it. |
| Counting.FollowersTally | languagemodeling/ngram.py:24-26 | How often a context extended by `t` was counted equals how often `t` followed that context. |
| Counting.FollowersLength | languagemodeling/ngram.py:26 | How often a context was counted as a prefix equals its number of followers. |
| LanguageModel.NGram.Count | languagemodeling/ngram.py:37-43 | `count(k)` is the number of windows equal to `k` plus the number of windows whose prefix is `k`. It is 0 for any key never counted. |
| LanguageModel.NGram.Prob | languagemodeling/ngram.py:28-35 | `AssertionError` exactly when the context (a missing context counts as empty) does not have `n - 1` tokens. `ZeroDivisionError` exactly when the context has that length but was never counted. Otherwise the result is the share of the context's followers equal to the token, which lies in `[0, 1]`. |
| LanguageModel.NGram.MissingContext | languagemodeling/ngram.py:29-32 | A missing `prev_tokens` and an empty one give the same result. For `n > 1` both fail the length assertion. For `n = 1` both succeed exactly when the empty context was counted. |
| LanguageModel.NGram.RelativeFrequency | languagemodeling/ngram.py:34-35 | For a seen context, `count(ctx + [t]) / count(ctx)` is the relative frequency of `t` after `ctx` and lies in `[0, 1]`. |
| LanguageModel.NGram.NGramsNotContexts | languagemodeling/ngram.py:24-26 | A key of length `n` is never counted as a prefix. |
| LanguageModel.NGram.ContextsNotNGrams | languagemodeling/ngram.py:24-26 | A key of length `n - 1` is never counted as a window. |
| LanguageModel.NGram.CountFollowers | languagemodeling/ngram.py:24-26 | A context's count is its number of followers, and the count of `ctx + [t]` is how often `t` follows it. |
| LanguageModel.NGram.ExtensionBound | languagemodeling/ngram.py:24-26 | `count(ctx + [t]) <= count(ctx)` for every context of length `n - 1`. |
| LanguageModel.NGram.ExtensionSumFollowers | languagemodeling/ngram.py:24-26 | Adding up the extension counts of a context over a list of tokens gives the multiplicity of those tokens among its followers. |
| LanguageModel.NGram.PrefixConsistency | languagemodeling/ngram.py:24-26 | For every `(n-1)`-token context, its count equals the sum of `count(ctx + [t])` over all tokens `t`. |
| LanguageModel.NGram.UnigramContext | languagemodeling/ngram.py:21-26 | For `n = 1`, `count(())` is the total number of windows, that is `sum (L_i + 1)`. |
| LanguageModel.NGram.CountSumNGrams | languagemodeling/ngram.py:24 | Summing `count` over keys of length `n` sums their multiplicities among the windows. |
| LanguageModel.NGram.NGramsCovered | languagemodeling/ngram.py:21-24 | A list of keys that covers every `n`-gram with a positive count covers every window. |
| LanguageModel.NGram.NGramTotal | languagemodeling/ngram.py:21-24 | The counts of all length-`n` keys add up to `sum (L_i + 1)` over the trained sentences. |
| LanguageModel.NGram.FinalToken | languagemodeling/ngram.py:18-22 | Every counted n-gram ends with an original token or the end marker. If no sentence contains a begin marker, it never ends with one. |
| LanguageModel.NGram.EndingCovered | languagemodeling/ngram.py:18-24 | A list of keys that covers every counted n-gram ending in the end marker covers every such window. |
| LanguageModel.NGram.EndingSum | languagemodeling/ngram.py:18-24 | Over keys ending in the end marker, the windows ending in it have the same multiplicities as all windows. |
| LanguageModel.NGram.SentenceEnds | languagemodeling/ngram.py:18-24 | When no sentence contains the end marker, the counts of the n-grams ending in it add up to the number of sentences. |
| LanguageModel.NGram.ProbsSumToOne | languagemodeling/ngram.py:34-35 | For a seen context, the probabilities of all tokens that follow it add up to exactly 1. |

## Left out

- `cond_prob`, `sent_prob` and `sent_log_prob` (`languagemodeling/ngram.py:46-63`) are left out because they are docstrings without bodies, so there is no behaviour to model.
- `AddOneNGram`, `NGramGenerator`, `perplexity` and `cross_entrophy` are referenced by the scripts but are not part of this model, because no code for them exists in the repository.
- The scripts `train.py`, `generate.py` and `eval.py` are left out because they only do command-line parsing, pickling, file access and printing.
- The corpus readers are left out because their tokenizing is done by library code that is not part of this model.
- `LanguageModel.NGram.Prob` returns the exact real ratio of two counts, not the IEEE double that `float(...) / ...` computes.
- `LanguageModel.NGram.Prob` does not model the `TypeError` that `prev_tokens + [token]` raises when `prev_tokens` is a non-empty tuple or another non-list sequence of the right length, because the context is modelled as a plain token sequence.
- Keys are token sequences. The Python distinction between a tuple key and an unhashable list key, which raises `TypeError`, is not modelled.
- `LanguageModel.NGram.Count` and `LanguageModel.NGram.Prob` do not store the zero entry that reading a missing `defaultdict` key inserts into `self.counts`.
  - That entry changes the dictionary's key set but not any count.
  - `Counting.Touch` shows that no key reads differently after such a read.
- `LanguageModel.Train` takes `n` as an integer. Python's comparison of a non-integer `n` (a float, or a type without `>`) is not modelled.
- `LanguageModel.NGram.SentenceEnds` requires that no sentence already contains the end marker, because otherwise the count also includes the sentences' own end markers.
- `LanguageModel.NGram.FinalToken` states its "never a begin marker" half only for sentences that contain no begin marker, for the same reason.
- `LanguageModel.NGram.PrefixConsistency` and `LanguageModel.NGram.ProbsSumToOne` sum over a caller-given duplicate-free list of tokens that covers every follower, rather than over all strings.
- `LanguageModel.NGram.NGramTotal` sums over such a list of keys in the same way.
