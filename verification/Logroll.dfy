/** The rolling log: a buffer of the last lines of a stream, overwritten in a ring, that can be
    dumped by a signal while it waits for a line. */
module Logroll {

  /** The buffer from its oldest line on. */
  function Dump(lines: seq<string>, idx: nat): seq<string>
    requires idx <= |lines|
  {
    lines[idx..] + lines[..idx]
  }

  /** The last lines of what was seen; without a positive target, all of them. */
  function Last(seen: seq<string>, target: int): seq<string> {
    if target <= 0 || |seen| <= target then seen else seen[|seen| - target..]
  }

  /** What signals have printed before line k is taken; signals[j] means that one arrives while
      waiting for line j. */
  function Printed(incoming: seq<string>, signals: seq<bool>, target: int, k: nat): seq<string>
    requires k <= |incoming| + 1 == |signals|
  {
    if k == 0 then []
    else if signals[k - 1] then Printed(incoming, signals, target, k - 1) + Last(incoming[..k - 1], target)
    else Printed(incoming, signals, target, k - 1)
  }

  /** The ring after the given lines: filling up, or full with the oldest line at idx. */
  ghost predicate Rolling(lines: seq<string>, idx: nat, target: int, seen: seq<string>) {
    && idx <= |lines| && Dump(lines, idx) == Last(seen, target)
    && (if 0 < target <= |seen| then |lines| == target && idx < target else lines == seen && idx == |seen|)
  }

  lemma RollingAppends(lines: seq<string>, idx: nat, target: int, seen: seq<string>, line: string)
    requires Rolling(lines, idx, target, seen) && !(0 < target <= |seen|)
    ensures Rolling(lines + [line], if idx == target - 1 then 0 else idx + 1, target, seen + [line])
  {
    assert Dump(lines + [line], 0) == lines + [line];
    assert Dump(lines + [line], |lines| + 1) == lines + [line];
  }

  lemma RollingOverwrites(lines: seq<string>, idx: nat, target: int, seen: seq<string>, line: string)
    requires Rolling(lines, idx, target, seen) && 0 < target <= |seen|
    ensures Rolling(lines[idx := line], if idx == target - 1 then 0 else idx + 1, target, seen + [line])
  {
    var old', all := Dump(lines, idx), seen + [line];
    var new' := Dump(lines[idx := line], if idx == target - 1 then 0 else idx + 1);
    assert new' == old'[1..] + [line];
    assert Last(all, target) == seen[|seen| - target..][1..] + [line];
  }

  /** What the buffer is and what has been printed while it waits for line k. */
  ghost predicate Waiting(incoming: seq<string>, signals: seq<bool>, target: int,
                          k: nat, lines: seq<string>, idx: nat, output: seq<string>) {
    && k <= |incoming| && |signals| == |incoming| + 1 && Rolling(lines, idx, target, incoming[..k])
    && output == Printed(incoming, signals, target, k)
  }

  /** The output after a wait, with or without a signal. */
  function AfterWait(output: seq<string>, signal: bool, lines: seq<string>, idx: nat): seq<string>
    requires idx <= |lines|
  {
    if signal then output + Dump(lines, idx) else output
  }

  lemma TakesLine(incoming: seq<string>, signals: seq<bool>, target: int, k: nat,
                  lines: seq<string>, idx: nat, output: seq<string>, lines': seq<string>, idx': nat)
    requires Waiting(incoming, signals, target, k, lines, idx, output) && k < |incoming|
    requires Rolling(lines', idx', target, incoming[..k] + [incoming[k]])
    ensures Waiting(incoming, signals, target, k + 1, lines', idx', AfterWait(output, signals[k], lines, idx))
  {
    assert incoming[..k + 1] == incoming[..k] + [incoming[k]];
  }

  lemma InputEnds(incoming: seq<string>, signals: seq<bool>, target: int,
                  lines: seq<string>, idx: nat, output: seq<string>)
    requires Waiting(incoming, signals, target, |incoming|, lines, idx, output)
    ensures AfterWait(output, signals[|incoming|], lines, idx) == Printed(incoming, signals, target, |signals|)
    ensures Dump(lines, idx) == Last(incoming, target)
  {
    assert incoming[..|incoming|] == incoming;
  }

  /** The first loop: appending until the buffer has its size. */
  method Fill(target: int, incoming: seq<string>, signals: seq<bool>)
    returns (lines: seq<string>, idx: nat, k: nat, output: seq<string>)
    requires |signals| == |incoming| + 1
    ensures Waiting(incoming, signals, target, k, lines, idx, output)
    ensures k == |incoming| || 0 < target <= k
  {
    lines, idx, k, output := [], 0, 0, [];
    while k < |incoming|
      invariant Waiting(incoming, signals, target, k, lines, idx, output) && !(0 < target <= k)
    {
      RollingAppends(lines, idx, target, incoming[..k], incoming[k]);
      TakesLine(incoming, signals, target, k, lines, idx, output,
                lines + [incoming[k]], if idx == target - 1 then 0 else idx + 1);
      output := AfterWait(output, signals[k], lines, idx);
      lines := lines + [incoming[k]];
      k := k + 1;
      if idx == target - 1 {
        idx := 0;
        break;
      }
      idx := idx + 1;
    }
  }

  /** The second loop: overwriting the oldest line. */
  method Turn(target: int, incoming: seq<string>, signals: seq<bool>,
              k0: nat, lines0: seq<string>, idx0: nat, output0: seq<string>)
    returns (lines: seq<string>, idx: nat, output: seq<string>)
    requires Waiting(incoming, signals, target, k0, lines0, idx0, output0)
    requires k0 == |incoming| || 0 < target <= k0
    ensures Waiting(incoming, signals, target, |incoming|, lines, idx, output)
  {
    lines, idx, output := lines0, idx0, output0;
    for k := k0 to |incoming|
      invariant Waiting(incoming, signals, target, k, lines, idx, output)
    {
      RollingOverwrites(lines, idx, target, incoming[..k], incoming[k]);
      TakesLine(incoming, signals, target, k, lines, idx, output,
                lines[idx := incoming[k]], if idx == target - 1 then 0 else idx + 1);
      output := AfterWait(output, signals[k], lines, idx);
      lines := lines[idx := incoming[k]];
      idx := if idx == target - 1 then 0 else idx + 1;
    }
  }

  /** Whatever signals come: each prints the last lines seen so far, and so does the end. */
  method Roll(target: int, incoming: seq<string>, signals: seq<bool>) returns (output: seq<string>)
    requires |signals| == |incoming| + 1
    ensures output == Printed(incoming, signals, target, |signals|) + Last(incoming, target)
  {
    var lines: seq<string>, idx: nat, k: nat;
    lines, idx, k, output := Fill(target, incoming, signals);
    lines, idx, output := Turn(target, incoming, signals, k, lines, idx, output);
    InputEnds(incoming, signals, target, lines, idx, output);
    output := AfterWait(output, signals[|incoming|], lines, idx);
    output := output + Dump(lines, idx);
  }
}
