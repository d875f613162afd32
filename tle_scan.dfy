/**
 * The three-line TLE block scan shared by the pass predictor and the
 * tracking loop: the file's lines are stripped and blank ones dropped, then
 * a window of three lines is slid down the list; where the second line
 * starts with "1 " and the third with "2 " the three are taken as
 * (name, line 1, line 2) and the window jumps past them, otherwise it moves
 * on by one line.
 */
module TleScan {
  import opened Builtins

  datatype Block = Block(name: string, line1: string, line2: string)

  /** Every line stripped of surrounding whitespace, blank lines dropped. */
  function CleanLines(raw: seq<string>): (lines: seq<string>)
    ensures |lines| <= |raw|
    ensures forall i :: 0 <= i < |lines| ==>
      lines[i] != [] && !IsSpace(lines[i][0]) && !IsSpace(lines[i][|lines[i]| - 1])
  {
    if raw == [] then []
    else
      var n := |raw| - 1;
      var t := Strip(raw[n]);
      StripEnds(raw[n]);
      CleanLines(raw[..n]) + (if t == [] then [] else [t])
  }

  /** The window at i holds a block: line i + 1 starts with "1 " and line i + 2 with "2 ". */
  predicate IsBlockAt(lines: seq<string>, i: nat)
    requires i + 3 <= |lines|
  {
    StartsWith(lines[i + 1], "1 ") && StartsWith(lines[i + 2], "2 ")
  }

  function BlockAt(lines: seq<string>, i: nat): Block
    requires i + 3 <= |lines|
  {
    Block(lines[i], lines[i + 1], lines[i + 2])
  }

  /** The indices at which the scan, started at line i, accepts a block:
      increasing, three or more apart, every one a block. */
  function StartsFrom(lines: seq<string>, i: nat): (st: seq<nat>)
    ensures forall j :: 0 <= j < |st| ==>
      i <= st[j] && st[j] + 3 <= |lines| && IsBlockAt(lines, st[j])
    ensures forall j, k :: 0 <= j < k < |st| ==> st[j] + 3 <= st[k]
    decreases |lines| - i
  {
    if i + 3 > |lines| then []
    else if IsBlockAt(lines, i) then [i] + StartsFrom(lines, i + 3)
    else StartsFrom(lines, i + 1)
  }

  /** The blocks the scan from line i emits, in order. */
  function BlocksFrom(lines: seq<string>, i: nat): seq<Block>
    decreases |lines| - i
  {
    if i + 3 > |lines| then []
    else if IsBlockAt(lines, i) then [BlockAt(lines, i)] + BlocksFrom(lines, i + 3)
    else BlocksFrom(lines, i + 1)
  }

  /** The blocks of a file whose cleaned lines are `lines`. */
  function Blocks(lines: seq<string>): seq<Block> {
    BlocksFrom(lines, 0)
  }

  /** The j-th emitted block is the window at the j-th accepted index. */
  lemma {:induction false} BlocksAtStarts(lines: seq<string>, i: nat)
    ensures |BlocksFrom(lines, i)| == |StartsFrom(lines, i)|
    ensures forall j :: 0 <= j < |StartsFrom(lines, i)| ==>
      BlocksFrom(lines, i)[j] == BlockAt(lines, StartsFrom(lines, i)[j])
    decreases |lines| - i
  {
    if i + 3 <= |lines| {
      if IsBlockAt(lines, i) {
        var bs, st := BlocksFrom(lines, i + 3), StartsFrom(lines, i + 3);
        BlocksAtStarts(lines, i + 3);
        assert BlocksFrom(lines, i) == [BlockAt(lines, i)] + bs;
        assert StartsFrom(lines, i) == [i] + st;
        forall j | 1 <= j < |st| + 1
          ensures BlocksFrom(lines, i)[j] == BlockAt(lines, StartsFrom(lines, i)[j])
        {
          assert BlocksFrom(lines, i)[j] == bs[j - 1];
          assert StartsFrom(lines, i)[j] == st[j - 1];
        }
      } else {
        BlocksAtStarts(lines, i + 1);
      }
    }
  }

  /** Emitted blocks are in file order and no two of them share a line; the
      line 1 and line 2 of each carry their "1 " and "2 " tags; and every
      window holding a block is emitted unless its name line is a tagged
      line of a block emitted before it. */
  lemma BlocksInOrder(lines: seq<string>)
    ensures var st := StartsFrom(lines, 0);
      && |Blocks(lines)| == |st|
      && (forall j :: 0 <= j < |st| ==>
            Blocks(lines)[j] == BlockAt(lines, st[j])
            && StartsWith(Blocks(lines)[j].line1, "1 ") && StartsWith(Blocks(lines)[j].line2, "2 "))
      && (forall j, k :: 0 <= j < k < |st| ==> st[j] + 2 < st[k])
      && (forall k: nat :: k + 3 <= |lines| && IsBlockAt(lines, k) && !Covered(st, k) ==> k in st)
  {
    BlocksAtStarts(lines, 0);
    forall k: nat | k + 3 <= |lines| && IsBlockAt(lines, k) && !Covered(StartsFrom(lines, 0), k)
      ensures k in StartsFrom(lines, 0)
    {
      NoBlockMissed(lines, 0, k);
    }
  }

  /** Line k lies strictly inside a window the scan accepted. */
  predicate Covered(st: seq<nat>, k: nat) {
    exists j :: 0 <= j < |st| && st[j] < k < st[j] + 3
  }

  /** The scan skips a block only when it overlaps a block taken earlier:
      every window from line i on that holds a block, and whose first line
      is not one of another accepted block's two tagged lines, is accepted. */
  lemma {:induction false} NoBlockMissed(lines: seq<string>, i: nat, k: nat)
    requires i <= k && k + 3 <= |lines| && IsBlockAt(lines, k)
    requires !Covered(StartsFrom(lines, i), k)
    ensures k in StartsFrom(lines, i)
    decreases |lines| - i
  {
    var st := StartsFrom(lines, i);
    if IsBlockAt(lines, i) {
      assert st == [i] + StartsFrom(lines, i + 3);
      if k != i {
        assert !(st[0] < k < st[0] + 3);
        var rest := StartsFrom(lines, i + 3);
        forall j | 0 <= j < |rest|
          ensures !(rest[j] < k < rest[j] + 3)
        {
          assert st[j + 1] == rest[j];
        }
        NoBlockMissed(lines, i + 3, k);
      }
    } else {
      assert k != i;
      NoBlockMissed(lines, i + 1, k);
    }
  }
}
