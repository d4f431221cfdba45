/** What the two server lifecycles share: channels that are made once and closed, and contexts. */
module Channels {

  datatype Chan = Nil | Open | Closed

  function ChanRank(c: Chan): nat {
    match c
    case Nil => 0
    case Open => 1
    case Closed => 2
  }

  /** The context a Shutdown is given, as its first two checks tell them apart. */
  datatype Context = NilContext | Unbounded | Bounded
}
