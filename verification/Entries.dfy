/** The entries of the append-only log: a command name, a database index, arguments. */
module Entries {
  import opened Base
  import opened Decimal

  type Command = seq<Bytes>

  datatype Name =
    | SET | DEL | SETNX | EXPIRE | INCR | DECR | LPUSH | RPUSH | LPOP | RPOP
    | LTRIM | RENAME | FLUSHDB | FLUSHALL | HSET | HDEL

  /** The ASCII spelling of a command name. */
  function Spelling(n: Name): (s: Bytes)
    ensures |s| >= 3
  {
    match n
    case SET => [0x53, 0x45, 0x54]
    case DEL => [0x44, 0x45, 0x4c]
    case SETNX => [0x53, 0x45, 0x54, 0x4e, 0x58]
    case EXPIRE => [0x45, 0x58, 0x50, 0x49, 0x52, 0x45]
    case INCR => [0x49, 0x4e, 0x43, 0x52]
    case DECR => [0x44, 0x45, 0x43, 0x52]
    case LPUSH => [0x4c, 0x50, 0x55, 0x53, 0x48]
    case RPUSH => [0x52, 0x50, 0x55, 0x53, 0x48]
    case LPOP => [0x4c, 0x50, 0x4f, 0x50]
    case RPOP => [0x52, 0x50, 0x4f, 0x50]
    case LTRIM => [0x4c, 0x54, 0x52, 0x49, 0x4d]
    case RENAME => [0x52, 0x45, 0x4e, 0x41, 0x4d, 0x45]
    case FLUSHDB => [0x46, 0x4c, 0x55, 0x53, 0x48, 0x44, 0x42]
    case FLUSHALL => [0x46, 0x4c, 0x55, 0x53, 0x48, 0x41, 0x4c, 0x4c]
    case HSET => [0x48, 0x53, 0x45, 0x54]
    case HDEL => [0x48, 0x44, 0x45, 0x4c]
  }

  /** The replay switch on the command name. */
  function ParseName(s: Bytes): (r: Option<Name>)
    ensures r.Some? ==> s == Spelling(r.value)
  {
    if s == Spelling(SET) then Some(SET)
    else if s == Spelling(DEL) then Some(DEL)
    else if s == Spelling(SETNX) then Some(SETNX)
    else if s == Spelling(EXPIRE) then Some(EXPIRE)
    else if s == Spelling(INCR) then Some(INCR)
    else if s == Spelling(DECR) then Some(DECR)
    else if s == Spelling(LPUSH) then Some(LPUSH)
    else if s == Spelling(RPUSH) then Some(RPUSH)
    else if s == Spelling(LPOP) then Some(LPOP)
    else if s == Spelling(RPOP) then Some(RPOP)
    else if s == Spelling(LTRIM) then Some(LTRIM)
    else if s == Spelling(RENAME) then Some(RENAME)
    else if s == Spelling(FLUSHDB) then Some(FLUSHDB)
    else if s == Spelling(FLUSHALL) then Some(FLUSHALL)
    else if s == Spelling(HSET) then Some(HSET)
    else if s == Spelling(HDEL) then Some(HDEL)
    else None
  }

  lemma SpellingInjective(a: Name, b: Name)
    requires Spelling(a) == Spelling(b)
    ensures a == b
  {
    var s, t := Spelling(a), Spelling(b);
    assert |s| == |t| && s[0] == t[0] && s[1] == t[1] && s[2] == t[2];
    assert |s| > 5 ==> s[5] == t[5];
  }

  /** Every logged name is recognised as itself. */
  lemma ParseSpelling(n: Name)
    ensures ParseName(Spelling(n)) == Some(n)
  {
    match ParseName(Spelling(n))
    case Some(m) => SpellingInjective(n, m);
    case None =>
  }

  /** A name is recognised from its own spelling and from no other bytes. */
  lemma ParseNameExactly(s: Bytes, n: Name)
    ensures ParseName(s) == Some(n) <==> s == Spelling(n)
  {
    hide Spelling, ParseName;
    ParseSpelling(n);
  }

  /** An entry that carries a database index. */
  function Entry(n: Name, db: nat, args: seq<Bytes>): (c: Command)
    ensures |c| == 2 + |args| && c[0] == Spelling(n) && c[1] == Itoa(db) && c[2..] == args
  {
    [Spelling(n), Itoa(db)] + args
  }
}
