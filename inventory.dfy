/** `get_connected_monitors`: the names of the outputs that `xrandr --query`
    reports as connected. The query text is a parameter; running xrandr is not
    part of the model. */
module Inventory {
  import opened Text
  import opened Seqs

  /** The marker a line must contain. The leading space keeps the lines of
      disconnected outputs ("HDMI-1 disconnected ...") out. */
  const ConnectedMarker: string := " connected"

  /** The filter of the comprehension: `' connected' in line`. */
  predicate IsConnectedLine(line: string) {
    Contains(line, ConnectedMarker)
  }

  /** The first whitespace-separated token of a line, or "" for a blank line. */
  function FirstWord(line: string): string {
    TakeWord(TrimStart(line))
  }

  /** A kept line always has a first token, so `line.split()[0]` cannot fail:
      the marker itself brings the non-space character 'c'. */
  lemma ConnectedLineHasWord(line: string)
    requires IsConnectedLine(line)
    ensures Words(line) != [] && Words(line)[0] == FirstWord(line)
  {
    ContainsIff(line, ConnectedMarker);
    var i :| OccursAt(line, ConnectedMarker, i);
    assert line[i + 1] == line[i..i + |ConnectedMarker|][1] == 'c';
    WordsEmpty(line);
  }

  /** The comprehension `[line.split()[0] for line in lines if ' connected' in line]`. */
  function ConnectedNames(lines: seq<string>): (names: seq<string>)
    ensures |names| == |Filter(lines, IsConnectedLine)|
  {
    if lines == [] then []
    else
      var rest := ConnectedNames(lines[1..]);
      if IsConnectedLine(lines[0]) then
        ConnectedLineHasWord(lines[0]);
        [Words(lines[0])[0]] + rest
      else
        rest
  }

  /** The first token of every line, in order. */
  function FirstWords(lines: seq<string>): (firsts: seq<string>)
    ensures |firsts| == |lines|
  {
    if lines == [] then [] else [FirstWord(lines[0])] + FirstWords(lines[1..])
  }

  /** Entry k is the first token of line k. */
  lemma {:induction false} FirstWordsIndex(lines: seq<string>)
    ensures forall k :: 0 <= k < |lines| ==> FirstWords(lines)[k] == FirstWord(lines[k])
  {
    if lines != [] {
      FirstWordsIndex(lines[1..]);
      forall k | 0 < k < |lines|
        ensures FirstWords(lines)[k] == FirstWord(lines[k])
      {
        assert FirstWords(lines)[k] == FirstWords(lines[1..])[k - 1];
        assert lines[k] == lines[1..][k - 1];
      }
    }
  }

  /** One name per kept line, in line order, each the first token of its line. */
  lemma {:induction false} ConnectedNamesSpec(lines: seq<string>)
    ensures ConnectedNames(lines) == FirstWords(Filter(lines, IsConnectedLine))
  {
    if lines != [] {
      var keptRest := Filter(lines[1..], IsConnectedLine);
      ConnectedNamesSpec(lines[1..]);
      if IsConnectedLine(lines[0]) {
        ConnectedLineHasWord(lines[0]);
        assert Filter(lines, IsConnectedLine) == [lines[0]] + keptRest;
        assert ([lines[0]] + keptRest)[1..] == keptRest;
      } else {
        assert Filter(lines, IsConnectedLine) == keptRest;
      }
    }
  }

  /** The name read from a kept line is a genuine token: non-empty, no whitespace. */
  lemma ConnectedLineWord(line: string)
    requires IsConnectedLine(line)
    ensures IsWord(FirstWord(line))
  {
    ConnectedLineHasWord(line);
    WordsAreWords(line);
  }

  /** Every name returned is a non-empty token without whitespace. */
  lemma ConnectedNamesAreWords(lines: seq<string>)
    ensures forall k :: 0 <= k < |ConnectedNames(lines)| ==> IsWord(ConnectedNames(lines)[k])
  {
    ConnectedNamesSpec(lines);
    FilterMembers(lines, IsConnectedLine);
    FirstWordsIndex(Filter(lines, IsConnectedLine));
    var kept := Filter(lines, IsConnectedLine);
    forall k | 0 <= k < |kept|
      ensures IsWord(FirstWords(kept)[k])
    {
      ConnectedLineWord(kept[k]);
    }
  }

  /** `get_connected_monitors` on the text xrandr printed. */
  function ConnectedMonitors(output: string): (names: seq<string>)
    ensures forall k :: 0 <= k < |names| ==> IsWord(names[k])
  {
    ConnectedNamesAreWords(Split(output, '\n'));
    ConnectedNames(Split(output, '\n'))
  }

  /** Query text made of newline-free lines is read line by line. */
  lemma ConnectedMonitorsOfLines(lines: seq<string>)
    requires |lines| >= 1
    requires forall k :: 0 <= k < |lines| ==> '\n' !in lines[k]
    ensures ConnectedMonitors(Join(lines, '\n')) == ConnectedNames(lines)
  {
    SplitJoin(lines, '\n');
  }

  /** The line of a connected output is kept and yields the output's name. */
  lemma ConnectedLineName(name: string, rest: string)
    requires IsWord(name)
    ensures IsConnectedLine(name + " connected" + rest)
    ensures FirstWord(name + " connected" + rest) == name
  {
    var line := name + " connected" + rest;
    assert line == name + (" connected" + rest);
    assert line[|name|..|name| + |ConnectedMarker|] == ConnectedMarker;
    assert OccursAt(line, ConnectedMarker, |name|);
    ContainsIff(line, ConnectedMarker);
    assert line[0] == name[0];
    assert TrimStart(line) == line;
    TakeWordOf(name, " connected" + rest);
  }

  /** A window holding the marker starts with a space followed by 'c'. */
  lemma MarkerStart(s: string, i: int)
    requires 0 <= i <= |s| - |ConnectedMarker|
    ensures OccursAt(s, ConnectedMarker, i) ==> s[i] == ' ' && s[i + 1] == 'c'
  {
    assert s[i..i + |ConnectedMarker|][0] == s[i];
    assert s[i..i + |ConnectedMarker|][1] == s[i + 1];
  }

  /** A window lying inside the second part of a concatenation is a window of that part. */
  lemma OccursInSuffix(front: string, rest: string, sub: string, i: int)
    requires |front| <= i
    ensures OccursAt(front + rest, sub, i) ==> OccursAt(rest, sub, i - |front|)
  {
    if OccursAt(front + rest, sub, i) {
      assert (front + rest)[i..i + |sub|] == rest[i - |front|..i - |front| + |sub|];
    }
  }

  /** The line of a disconnected output is dropped: "disconnected" has no space
      in front of its "connected". */
  lemma DisconnectedLineDropped(name: string, rest: string)
    requires ' ' !in name
    requires !Contains(rest, ConnectedMarker)
    ensures !IsConnectedLine(name + " disconnected" + rest)
  {
    var mark := " disconnected";
    var line := name + mark + rest;
    var m := |ConnectedMarker|;
    ContainsIff(rest, ConnectedMarker);
    assert line == (name + mark) + rest;
    forall i | 0 <= i <= |line| - m
      ensures !OccursAt(line, ConnectedMarker, i)
    {
      MarkerStart(line, i);
      if i < |name| {
        assert line[i] == name[i];
      } else if i == |name| {
        assert line[i + 1] == mark[1] == 'd';
      } else if i < |name| + |mark| {
        assert line[i] == mark[i - |name|];
        assert forall j :: 1 <= j < |mark| ==> mark[j] != ' ';
      } else {
        OccursInSuffix(name + mark, rest, ConnectedMarker, i);
      }
    }
    ContainsIff(line, ConnectedMarker);
  }

  /** One line in front of others adds its name when it is kept. */
  lemma ConnectedNamesCons(line: string, lines: seq<string>)
    ensures ConnectedNames([line] + lines)
            == (if IsConnectedLine(line) then [FirstWord(line)] else []) + ConnectedNames(lines)
  {
    assert ([line] + lines)[1..] == lines;
    if IsConnectedLine(line) {
      ConnectedLineHasWord(line);
    }
  }

  /** Of three lines with only the middle one not kept, the names of the outer two. */
  lemma ConnectedNamesOfThree(l0: string, l1: string, l2: string)
    requires IsConnectedLine(l0) && !IsConnectedLine(l1) && IsConnectedLine(l2)
    ensures ConnectedNames([l0, l1, l2]) == [FirstWord(l0), FirstWord(l2)]
  {
    ConnectedNamesCons(l2, []);
    ConnectedNamesCons(l1, [l2]);
    ConnectedNamesCons(l0, [l1, l2]);
    assert [l2] + [] == [l2] && [l1] + [l2] == [l1, l2] && [l0] + [l1, l2] == [l0, l1, l2];
  }

  /** A query listing a connected panel, a disconnected output and a connected
      external output (in that order) yields the two connected names, in order. */
  lemma QueryOfThreeOutputs(panel: string, gone: string, external: string, panelTail: string, externalTail: string)
    requires IsWord(panel) && IsWord(external)
    requires ' ' !in gone && '\n' !in gone
    requires '\n' !in panelTail && '\n' !in externalTail
    ensures ConnectedMonitors(Join([panel + " connected" + panelTail,
                                    gone + " disconnected",
                                    external + " connected" + externalTail], '\n'))
         == [panel, external]
  {
    var l0, l1, l2 := panel + " connected" + panelTail, gone + " disconnected", external + " connected" + externalTail;
    assert '\n' !in l0 && '\n' !in l1 && '\n' !in l2;
    ConnectedMonitorsOfLines([l0, l1, l2]);
    ConnectedLineName(panel, panelTail);
    assert l1 == gone + " disconnected" + [];
    DisconnectedLineDropped(gone, []);
    ConnectedLineName(external, externalTail);
    ConnectedNamesOfThree(l0, l1, l2);
  }
}
