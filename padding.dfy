/**
 Sentence delimiting and the sliding window of the n-gram trainer.
 Training pads a sentence with `n - 1` begin markers in front and one end
 marker behind, then reads every run of `n` consecutive tokens of it.
 */
module Padding {

  /** The begin-of-sentence marker. */
  const BOS: string := "<s>"
  /** The end-of-sentence marker. */
  const EOS: string := "</s>"

  /** `k` copies of `x`, the list `k * [x]`. */
  function Repeat(x: string, k: nat): (r: seq<string>)
    ensures |r| == k
    ensures forall i :: 0 <= i < k ==> r[i] == x
  {
    seq(k, _ => x)
  }

  /** A sentence as training leaves it: `n - 1` begin markers, the tokens, one end marker. */
  function Pad(n: nat, s: seq<string>): (p: seq<string>)
    requires n > 0
    ensures |p| == |s| + n
    ensures forall i :: 0 <= i < n - 1 ==> p[i] == BOS
    ensures forall i :: 0 <= i < |s| ==> p[n - 1 + i] == s[i]
    ensures p[|p| - 1] == EOS
  {
    Repeat(BOS, n - 1) + s + [EOS]
  }

  /** The tokens between the begin markers and the end marker. */
  function Unpad(n: nat, p: seq<string>): (s: seq<string>)
    requires 0 < n <= |p|
    ensures |s| == |p| - n
  {
    p[n - 1..|p| - 1]
  }

  /** Padding loses nothing: the original tokens come back, in order. */
  lemma UnpadPad(n: nat, s: seq<string>)
    requires n > 0
    ensures Unpad(n, Pad(n, s)) == s
  {
    var p := Pad(n, s);
    forall i | 0 <= i < |s| ensures Unpad(n, p)[i] == s[i] {
      assert Unpad(n, p)[i] == p[n - 1 + i];
    }
  }

  /** A sentence padded `m` times over, as happens to a list object handed to training `m` times. */
  function PadTimes(n: nat, s: seq<string>, m: nat): (p: seq<string>)
    requires n > 0
    ensures |p| >= |s|
  {
    if m == 0 then s else Pad(n, PadTimes(n, s, m - 1))
  }

  /** The windows `p[i .. i + n]` for every `i` in `range(len(p) - n + 1)`. */
  function Windows(n: nat, p: seq<string>): (ws: seq<seq<string>>)
    requires n > 0
    ensures |ws| == if |p| < n then 0 else |p| - n + 1
  {
    if |p| < n then [] else seq(|p| - n + 1, i requires 0 <= i < |p| - n + 1 => p[i..i + n])
  }

  /** The last token of a non-empty window. */
  function Last(w: seq<string>): string
    requires |w| > 0
  {
    w[|w| - 1]
  }

  /** The last token of each window, in order. */
  function Finals(ws: seq<seq<string>>): (fs: seq<string>)
    requires forall w :: w in ws ==> |w| > 0
    ensures |fs| == |ws|
  {
    seq(|ws|, i requires 0 <= i < |ws| => Last(ws[i]))
  }

  /**
   A padded sentence of `L` tokens has exactly `L + 1` windows, and their last
   tokens are the sentence's own tokens followed by the end marker: no window
   ends on a begin marker that padding put in front.
   */
  lemma {:induction false} WindowsOfPad(n: nat, s: seq<string>)
    requires n > 0
    ensures |Windows(n, Pad(n, s))| == |s| + 1
    ensures Finals(Windows(n, Pad(n, s))) == s + [EOS]
  {
    var p := Pad(n, s);
    var ws := Windows(n, p);
    var fs := Finals(ws);
    forall i | 0 <= i < |ws| ensures fs[i] == (s + [EOS])[i] {
      assert ws[i] == p[i..i + n];
      assert fs[i] == p[n - 1 + i];
    }
  }
}
