/** Replaying a log: decoding an entry into an operation and applying it. */
module Replay {
  import opened Base
  import opened Decimal
  import opened Fields
  import opened Entries
  import opened Keyspace

  /** The arity test and argument conversion of each replay handler; args are the parts after the database index. */
  function Handle(n: Name, args: seq<Bytes>): (r: Option<KeyOp>) {
    match n
    case SET => if |args| == 2 then Some(Set(args[0], args[1], NO_OPTIONS)) else None
    case SETNX => if |args| == 2 then Some(SetNX(args[0], args[1])) else None
    case DEL => if |args| == 1 then Some(Del(args[0])) else None
    case EXPIRE =>
      if |args| == 2 && Atoi(args[1]).Some? then Some(Expire(args[0], Wrap64(Atoi(args[1]).value * SECOND))) else None
    case INCR => if |args| == 1 then Some(Incr(args[0])) else None
    case DECR => if |args| == 1 then Some(Decr(args[0])) else None
    case LPUSH => if |args| >= 2 then Some(LPush(args[0], args[1..])) else None
    case RPUSH => if |args| >= 2 then Some(RPush(args[0], args[1..])) else None
    case LPOP => if |args| == 2 && Atoi(args[1]).Some? then Some(LPop(args[0], Atoi(args[1]))) else None
    case RPOP => if |args| == 2 && Atoi(args[1]).Some? then Some(RPop(args[0], Atoi(args[1]))) else None
    case LTRIM =>
      if |args| == 3 then Some(LTrim(args[0], AtoiUnchecked(args[1]), AtoiUnchecked(args[2]))) else None
    case RENAME => if |args| == 2 then Some(Rename(args[0], args[1])) else None
    case FLUSHDB => if |args| == 0 then Some(FlushDb) else None
    case FLUSHALL => None
    case HSET => if |args| >= 3 && |args| % 2 == 1 then Some(HSet(args[0], ReadPairs(args[1..]))) else None
    case HDEL => if |args| >= 2 then Some(HDel(args[0], args[1..])) else None
  }

  /** What an entry asks for; the database index of Perform has not been checked yet. */
  datatype Request = Ignore | Everything | Perform(db: int, op: KeyOp)

  function Decode(parts: Command): Request {
    if parts == [] then Ignore
    else
      match ParseName(parts[0])
      case None => Ignore
      case Some(n) =>
        if n == FLUSHALL then (if |parts| == 1 then Everything else Ignore)
        else if |parts| < 2 then Ignore
        else
          match Atoi(parts[1])
          case None => Ignore
          case Some(i) =>
            match Handle(n, parts[2..])
            case None => Ignore
            case Some(op) => Perform(i, op)
  }

  /** Panicked stands for the run-time panic on a database index out of range. */
  datatype Outcome = Ran(state: State, log: seq<Command>) | Panicked

  function Dispatch(parts: Command, s: State, now: int): Outcome {
    match Decode(parts)
    case Ignore => Ran(s, [])
    case Everything => Ran(After(s, FlushAll, now), LogOf(s, FlushAll, now))
    case Perform(i, op) =>
      if 0 <= i < DATABASES then Ran(After(s, On(i, op), now), LogOf(s, On(i, op), now)) else Panicked
  }

  function ReplayAll(log: seq<Command>, s: State, now: int): Outcome {
    if log == [] then Ran(s, [])
    else
      match Dispatch(log[0], s, now)
      case Panicked => Panicked
      case Ran(s', l) =>
        match ReplayAll(log[1..], s', now)
        case Panicked => Panicked
        case Ran(s'', l') => Ran(s'', l + l')
  }

  lemma {:induction false} ReplayAppend(a: seq<Command>, b: seq<Command>, s: State, now: int)
    ensures ReplayAll(a + b, s, now) ==
            match ReplayAll(a, s, now)
            case Panicked => Panicked
            case Ran(s', l) =>
              match ReplayAll(b, s', now)
              case Panicked => Panicked
              case Ran(s'', l') => Ran(s'', l + l')
  {
    if a == [] {
      assert a + b == b;
    } else {
      assert (a + b)[1..] == a[1..] + b;
      match Dispatch(a[0], s, now)
      case Panicked =>
      case Ran(s', l) =>
        ReplayAppend(a[1..], b, s', now);
        match ReplayAll(a[1..], s', now)
        case Panicked =>
        case Ran(s1, l1) =>
          match ReplayAll(b, s1, now)
          case Panicked =>
          case Ran(s2, l2) =>
            assert l + l1 + l2 == l + (l1 + l2);
    }
  }

  /** An entry the store wrote is decoded with the name, the index and the arguments it was written with. */
  lemma DecodeEntry(n: Name, i: nat, args: seq<Bytes>)
    requires i < DATABASES && n != FLUSHALL
    ensures Decode(Entry(n, i, args)) ==
            match Handle(n, args)
            case None => Ignore
            case Some(op) => Perform(i, op)
  {
    ParseSpelling(n);
    AtoiItoa(i);
  }

  lemma DecodeFlushAll()
    ensures Decode([Spelling(FLUSHALL)]) == Everything
  {
    ParseSpelling(FLUSHALL);
  }
}
