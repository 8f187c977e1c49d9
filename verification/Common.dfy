/** Vocabulary shared by the driver models. */
module Common {
  datatype Option<+T> = None | Some(value: T)

  /** The four image streams of an Orbbec camera, in the order in which the adapter handles them. */
  datatype Stream = Color | LeftIr | RightIr | Depth {
    function Rank(): nat {
      match this
      case Color => 0
      case LeftIr => 1
      case RightIr => 2
      case Depth => 3
    }
  }

  /** One value for each stream; it stands for the adapter's four like-named fields. */
  datatype PerStream<+T> = PerStream(color: T, leftIr: T, rightIr: T, depth: T) {
    function Get(s: Stream): T {
      match s
      case Color => color
      case LeftIr => leftIr
      case RightIr => rightIr
      case Depth => depth
    }
  }

  function All<T>(v: T): PerStream<T> {
    PerStream(v, v, v, v)
  }

  function Set<T>(p: PerStream<T>, s: Stream, v: T): (r: PerStream<T>)
    ensures forall u: Stream :: r.Get(u) == if u == s then v else p.Get(u)
  {
    match s
    case Color => p.(color := v)
    case LeftIr => p.(leftIr := v)
    case RightIr => p.(rightIr := v)
    case Depth => p.(depth := v)
  }

  /** The C++ conversion from a floating-point value to an integer: truncation toward zero. */
  function Truncate(x: real): int {
    if x >= 0.0 then x.Floor else -((-x).Floor)
  }
}
