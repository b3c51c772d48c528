/** The mission result page: the topic read from the `topic` query parameter,
    and the overview computed from the fixed list of generated mission steps
    (step count, total duration, step labels and the connectors between the
    steps). */
module MissionResult {
  import opened Wrappers
  import opened Text

  datatype MissionStep = MissionStep(kind: string, title: string, description: string, duration: string)

  const DefaultTopic: string := "Web3 Development"

  const GeneratedSteps: seq<MissionStep> := [
    MissionStep("Introduction", "Understanding the Basics",
                "Learn the fundamental concepts and terminology", "5 min"),
    MissionStep("Tutorial", "Video Walkthrough",
                "Watch an expert demonstration of key concepts", "8 min"),
    MissionStep("Coding Exercise", "Hands-on Practice",
                "Write and deploy your own implementation", "15 min"),
    MissionStep("Quiz", "Knowledge Check",
                "Test your understanding with interactive questions", "5 min"),
    MissionStep("Project", "Final Challenge",
                "Build a complete solution from scratch", "20 min")
  ]

  /** `searchParams.get("topic") || "Web3 Development"`: a present, non-empty
      query value is the topic; an absent or empty one (both falsy) gives the
      default. The page title is therefore never empty. */
  function ResolveTopic(query: Option<string>): (topic: string)
    ensures topic != ""
    ensures query.Some? && query.value != "" ==> topic == query.value
    ensures query.None? || query.value == "" ==> topic == DefaultTopic
  {
    match query
    case Some(value) => if value != "" then value else DefaultTopic
    case None => DefaultTopic
  }

  /** `sum + minutes` on numbers, where None stands for NaN and absorbs. */
  function AddMinutes(sum: Option<int>, minutes: Option<int>): Option<int> {
    if sum.Some? && minutes.Some? then Some(sum.value + minutes.value) else None
  }

  /** `steps.reduce((sum, step) => sum + parse(step.duration), acc)`: the
      callback applied left to right, `parse` standing for the integer parser.
      A NaN accumulator stays NaN to the end. */
  function FoldDurations(acc: Option<int>, steps: seq<MissionStep>, parse: string -> Option<int>): (r: Option<int>)
    ensures acc == None ==> r == None
    decreases |steps|
  {
    if steps == [] then acc
    else FoldDurations(AddMinutes(acc, parse(steps[0].duration)), steps[1..], parse)
  }

  /** The reference meaning of a total: the plain sum of the minutes. */
  function Sum(minutes: seq<int>): int {
    if minutes == [] then 0 else minutes[0] + Sum(minutes[1..])
  }

  predicate AllParse(steps: seq<MissionStep>, parse: string -> Option<int>) {
    forall i :: 0 <= i < |steps| ==> parse(steps[i].duration).Some?
  }

  /** The parsed leading integer of each duration, when all of them parse. */
  function Minutes(steps: seq<MissionStep>, parse: string -> Option<int>): (m: seq<int>)
    requires AllParse(steps, parse)
    ensures |m| == |steps|
  {
    seq(|steps|, i requires 0 <= i < |steps| => parse(steps[i].duration).value)
  }

  lemma {:induction false} FoldIsSum(acc: int, steps: seq<MissionStep>, parse: string -> Option<int>)
    requires AllParse(steps, parse)
    ensures FoldDurations(Some(acc), steps, parse) == Some(acc + Sum(Minutes(steps, parse)))
    decreases |steps|
  {
    if steps != [] {
      assert AllParse(steps[1..], parse) by {
        forall i | 0 <= i < |steps[1..]| ensures parse(steps[1..][i].duration).Some? {
          assert steps[1..][i] == steps[i + 1];
        }
      }
      assert Minutes(steps, parse)[1..] == Minutes(steps[1..], parse);
      FoldIsSum(acc + parse(steps[0].duration).value, steps[1..], parse);
    }
  }

  lemma {:induction false} FoldDefinedIff(acc: int, steps: seq<MissionStep>, parse: string -> Option<int>)
    ensures FoldDurations(Some(acc), steps, parse).Some? <==> AllParse(steps, parse)
    decreases |steps|
  {
    if steps != [] {
      var m := parse(steps[0].duration);
      if m.Some? {
        FoldDefinedIff(acc + m.value, steps[1..], parse);
        assert AllParse(steps, parse) <==> AllParse(steps[1..], parse) by {
          forall i | 0 <= i < |steps[1..]| ensures steps[1..][i] == steps[i + 1] {
          }
        }
      }
    }
  }

  /** totalDuration: the reduce from 0 over `parseInt(step.duration)`. It is
      a number exactly when every duration starts with an integer, and it is
      then the sum of those integers; a single duration without a leading
      integer makes the total NaN. */
  function TotalDuration(steps: seq<MissionStep>): (r: Option<int>)
    ensures r.Some? <==> AllParse(steps, ParseInt)
    ensures AllParse(steps, ParseInt) ==> r == Some(Sum(Minutes(steps, ParseInt)))
  {
    FoldDefinedIff(0, steps, ParseInt);
    if AllParse(steps, ParseInt) then
      FoldIsSum(0, steps, ParseInt);
      FoldDurations(Some(0), steps, ParseInt)
    else
      FoldDurations(Some(0), steps, ParseInt)
  }

  lemma ParsesAsMinutes(duration: string, n: nat)
    requires duration == NatToString(n) + " min"
    ensures ParseInt(duration) == Some(n)
  {
    ParseIntOfNatToString(n, " min");
  }

  /** Steps whose durations read "N min" for the given minute counts. */
  predicate FormattedAs(steps: seq<MissionStep>, minutes: seq<nat>) {
    |steps| == |minutes|
    && forall i :: 0 <= i < |steps| ==> steps[i].duration == NatToString(minutes[i]) + " min"
  }

  /** For durations written "N min", totalDuration is the sum of the N. */
  lemma TotalOfFormatted(steps: seq<MissionStep>, minutes: seq<nat>)
    requires FormattedAs(steps, minutes)
    ensures TotalDuration(steps) == Some(Sum(minutes))
  {
    forall i | 0 <= i < |steps| ensures ParseInt(steps[i].duration) == Some(minutes[i]) {
      ParsesAsMinutes(steps[i].duration, minutes[i]);
    }
    assert Minutes(steps, ParseInt) == minutes;
  }

  /** The generated durations are "5 min", "8 min", "15 min", "5 min", "20 min". */
  lemma GeneratedFormatted()
    ensures FormattedAs(GeneratedSteps, [5, 8, 15, 5, 20])
  {
    assert NatToString(1) == "1" && NatToString(2) == "2";
    assert NatToString(15) == "15" && NatToString(20) == "20";
  }

  /** The generated mission lasts 5 + 8 + 15 + 5 + 20 = 53 minutes. */
  lemma GeneratedTotalDuration()
    ensures TotalDuration(GeneratedSteps) == Some(53)
  {
    GeneratedFormatted();
    TotalOfFormatted(GeneratedSteps, [5, 8, 15, 5, 20]);
    assert Sum([5, 8, 15, 5, 20]) == 53;
  }

  /** `index < missionSteps.length - 1`: a connector is drawn below the step. */
  predicate HasConnector(index: nat, count: nat) {
    index < count - 1
  }

  /** The number of connectors drawn below the steps at indices under `upTo`. */
  function ConnectorsBelow(upTo: nat, count: nat): nat {
    if upTo == 0 then 0
    else ConnectorsBelow(upTo - 1, count) + (if HasConnector(upTo - 1, count) then 1 else 0)
  }

  lemma {:induction false} ConnectorsBelowPrefix(upTo: nat, count: nat)
    requires 1 <= count && upTo <= count
    ensures ConnectorsBelow(upTo, count) == if upTo < count then upTo else count - 1
  {
    if upTo > 0 {
      ConnectorsBelowPrefix(upTo - 1, count);
    }
  }

  /** Every step but the last has a connector: n steps, n - 1 connectors. */
  lemma ConnectorCount(count: nat)
    ensures ConnectorsBelow(count, count) == if count == 0 then 0 else count - 1
  {
    if count > 0 {
      ConnectorsBelowPrefix(count, count);
    }
  }

  /** `Step {index + 1}`: the label of the step at `index`. */
  function StepLabel(index: nat): string {
    "Step " + NatToString(index + 1)
  }

  /** Labels are 1-based: the number in the label of index i reads back as i + 1. */
  lemma StepLabelNumber(index: nat)
    ensures StepLabel(index)[..5] == "Step "
    ensures ParseInt(StepLabel(index)[5..]) == Some(index + 1)
  {
    assert StepLabel(index)[5..] == NatToString(index + 1) + [];
    ParseIntOfNatToString(index + 1, []);
  }

  /** No two steps share a label. */
  lemma StepLabelsDistinct(i: nat, j: nat)
    requires i != j
    ensures StepLabel(i) != StepLabel(j)
  {
    if StepLabel(i) == StepLabel(j) {
      assert NatToString(i + 1) == StepLabel(i)[5..] == StepLabel(j)[5..] == NatToString(j + 1);
      NatToStringInjective(i + 1, j + 1);
    }
  }

  /** What the page shows besides the step cards themselves. */
  datatype Overview = Overview(topic: string, totalSteps: nat, totalDuration: Option<int>,
                               labels: seq<string>, connectors: nat)

  function Labels(count: nat): (labels: seq<string>)
    ensures |labels| == count
  {
    seq(count, i requires 0 <= i => StepLabel(i))
  }

  /** What the result page shows for a query and a list of steps: a non-empty
      topic, one label per step and one connector fewer than there are steps. */
  function Summarize(query: Option<string>, steps: seq<MissionStep>): (o: Overview)
    ensures o.topic != "" && o.totalSteps == |steps| && |o.labels| == |steps|
    ensures o.connectors == if steps == [] then 0 else |steps| - 1
  {
    ConnectorCount(|steps|);
    Overview(ResolveTopic(query), |steps|, TotalDuration(steps),
             Labels(|steps|), ConnectorsBelow(|steps|, |steps|))
  }

  lemma FiveLabels()
    ensures Labels(5) == ["Step 1", "Step 2", "Step 3", "Step 4", "Step 5"]
  {
    assert NatToString(1) == "1" && NatToString(2) == "2" && NatToString(3) == "3";
    assert NatToString(4) == "4" && NatToString(5) == "5";
    assert Labels(5)[0] == "Step 1" && Labels(5)[1] == "Step 2" && Labels(5)[2] == "Step 3";
    assert Labels(5)[3] == "Step 4" && Labels(5)[4] == "Step 5";
  }

  /** The page for the generated mission: five steps labelled Step 1 to Step 5,
      53 minutes in all, and four connectors between them. */
  lemma GeneratedOverview(query: Option<string>)
    ensures Summarize(query, GeneratedSteps)
         == Overview(ResolveTopic(query), 5, Some(53),
                     ["Step 1", "Step 2", "Step 3", "Step 4", "Step 5"], 4)
  {
    GeneratedTotalDuration();
    ConnectorCount(5);
    FiveLabels();
  }
}
