/** The "did you mean" suggestion for an unknown command. */
module CommandSuggestion {
  import opened Wrappers
  import opened EditDistance

  const KNOWN_COMMANDS: seq<Text> :=
    ["run-daemon", "query", "show-default-config", "install-systemd-unit", "version", "help"]

  function ToAsciiLowercase(s: Text): Text {
    seq(|s|, i requires 0 <= i < |s| => if 'A' <= s[i] <= 'Z' then s[i] - 'A' + 'a' else s[i])
  }

  function Longer(a: Text, b: Text): nat {
    if |a| < |b| then |b| else |a|
  }

  function Threshold(longer: nat): nat {
    if longer <= 4 then 1 else if longer <= 8 then 2 else 3
  }

  /** Close enough to be suggested. */
  predicate IsSimilar(input: Text, command: Text) {
    Distance(input, command) <= Threshold(Longer(input, command))
  }

  /** The position of the first command at the least distance. */
  function Closest(input: Text, commands: seq<Text>): (r: nat)
    requires commands != []
    ensures r < |commands|
    ensures forall j :: 0 <= j < |commands| ==> Distance(input, commands[r]) <= Distance(input, commands[j])
    ensures forall j :: 0 <= j < r ==> Distance(input, commands[r]) < Distance(input, commands[j])
  {
    if |commands| == 1 then 0
    else
      var before := Closest(input, commands[..|commands| - 1]);
      if Distance(input, commands[|commands| - 1]) < Distance(input, commands[before]) then |commands| - 1 else before
  }

  function FindSimilarCommand(input: Text): Option<Text> {
    var lower := ToAsciiLowercase(input);
    var command := KNOWN_COMMANDS[Closest(lower, KNOWN_COMMANDS)];
    if IsSimilar(lower, command) then Some(command) else None
  }

  /** Only the nearest command is tried against its threshold, which depends on its length. For the
      known commands nothing is missed by that: there is a suggestion exactly when some command is
      close enough, and the suggestion is a nearest one. */
  lemma SuggestsWheneverSomethingIsSimilar(input: Text)
    ensures var lower := ToAsciiLowercase(input);
            && (FindSimilarCommand(input).Some? <==> exists c :: c in KNOWN_COMMANDS && IsSimilar(lower, c))
            && (FindSimilarCommand(input).Some? ==>
                  && FindSimilarCommand(input).value in KNOWN_COMMANDS
                  && forall c :: c in KNOWN_COMMANDS ==>
                    Distance(lower, FindSimilarCommand(input).value) <= Distance(lower, c))
  {
    var lower := ToAsciiLowercase(input);
    var k := Closest(lower, KNOWN_COMMANDS);
    assert KNOWN_COMMANDS[k] in KNOWN_COMMANDS;
    if c :| c in KNOWN_COMMANDS && IsSimilar(lower, c) {
      var j :| 0 <= j < |KNOWN_COMMANDS| && KNOWN_COMMANDS[j] == c;
      NearestIsSimilar(lower, k, j);
    }
  }

  /** How many edits are too many depends on the longer of the two texts: up to 4 characters one edit is close enough,
      up to 8 two, beyond three. */
  lemma CloseEnough(input: Text, command: Text)
    ensures IsSimilar(input, command) <==>
            || Distance(input, command) <= 1
            || (Distance(input, command) == 2 && (|input| >= 5 || |command| >= 5))
            || (Distance(input, command) == 3 && (|input| >= 9 || |command| >= 9))
  {
    hide Distance;
  }

  /** The case of ASCII letters does not matter, and nothing else is changed. */
  lemma CaseIsIgnored(s: Text)
    ensures |ToAsciiLowercase(s)| == |s|
    ensures forall i, k: nat :: 0 <= i < |s| && k < 26 ==>
              (s[i] == "ABCDEFGHIJKLMNOPQRSTUVWXYZ"[k] ==> ToAsciiLowercase(s)[i] == "abcdefghijklmnopqrstuvwxyz"[k])
    ensures forall i :: 0 <= i < |s| && s[i] !in "ABCDEFGHIJKLMNOPQRSTUVWXYZ" ==> ToAsciiLowercase(s)[i] == s[i]
  {
    var upper, lower := "ABCDEFGHIJKLMNOPQRSTUVWXYZ", "abcdefghijklmnopqrstuvwxyz";
    assert forall k: nat :: k < 26 ==> upper[k] as int == 65 + k && lower[k] as int == 97 + k;
    forall c: char | 'A' <= c <= 'Z'
      ensures c in upper
    {
      assert upper[c as int - 65] == c;
    }
  }

  lemma NearestIsSimilar(input: Text, k: nat, j: nat)
    requires k < |KNOWN_COMMANDS| && j < |KNOWN_COMMANDS| && k == Closest(input, KNOWN_COMMANDS)
    requires IsSimilar(input, KNOWN_COMMANDS[j])
    ensures IsSimilar(input, KNOWN_COMMANDS[k])
  {
    hide Distance, Closest;
    var lengths := [10, 5, 19, 20, 7, 4];
    assert forall i :: 0 <= i < |KNOWN_COMMANDS| ==> |KNOWN_COMMANDS[i]| == lengths[i];
    forall i | 0 <= i < |KNOWN_COMMANDS|
      ensures lengths[i] <= |input| + Distance(input, KNOWN_COMMANDS[i])
    {
      DistanceIsMetric(input, KNOWN_COMMANDS[i], input);
    }
    assert Distance(input, KNOWN_COMMANDS[k]) <= Distance(input, KNOWN_COMMANDS[0]);
    assert Distance(input, KNOWN_COMMANDS[k]) <= Distance(input, KNOWN_COMMANDS[1]);
    assert j < k ==> Distance(input, KNOWN_COMMANDS[k]) < Distance(input, KNOWN_COMMANDS[j]);
  }
}
