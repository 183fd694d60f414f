/** Compatibility classes of the runtime guard and their ranks. */
module Severities {
  datatype Severity = Safe | BackwardCompatible | ForwardCompatible | Risky | Breaking

  function Rank(s: Severity): nat {
    match s
    case Safe => 0
    case BackwardCompatible => 1
    case ForwardCompatible => 2
    case Risky => 3
    case Breaking => 4
  }

  function Name(s: Severity): string {
    match s
    case Safe => "SAFE"
    case BackwardCompatible => "BACKWARD_COMPATIBLE"
    case ForwardCompatible => "FORWARD_COMPATIBLE"
    case Risky => "RISKY"
    case Breaking => "BREAKING"
  }

  /** The rank of a stored name; a name that is no class ranks as SAFE. */
  function RankOfName(name: string): nat {
    if name == "BACKWARD_COMPATIBLE" then 1
    else if name == "FORWARD_COMPATIBLE" then 2
    else if name == "RISKY" then 3
    else if name == "BREAKING" then 4
    else 0
  }

  /** Ranks tell classes apart, and a stored class ranks as itself. */
  lemma {:induction false} RanksAreNames(a: Severity, b: Severity)
    ensures RankOfName(Name(a)) == Rank(a) && (Rank(a) == Rank(b) <==> a == b)
    ensures Name(a) == Name(b) <==> a == b
  {
    assert |Name(Safe)| == 4 && |Name(BackwardCompatible)| == 19 && |Name(ForwardCompatible)| == 18;
    assert |Name(Risky)| == 5 && |Name(Breaking)| == 8;
  }
}
