/**
 The store as it lives in memory: databases map keys to Value objects, a list
 is a slice over a backing array, operations update values in place. Each method
 is proved against the operation of the same name in Keyspace.
 */
module StoreHeap {
  import opened Base
  import opened Decimal
  import opened Fields
  import opened Entries
  import opened Keyspace
  import opened Slices

  datatype Tag = TypeString | TypeList | TypeHash
  datatype Payload = Text(text: Bytes) | Window(slice: Slice) | Table(fields: FieldMap)

  /** The database and key that own a value. */
  datatype Home = Home(db: DbIndex, key: Bytes)

  class Value {
    var tag: Tag
    var data: Payload
    var expiresAt: Option<int>
    ghost var home: Home

    constructor (tag: Tag, data: Payload, ghost home: Home)
      ensures this.tag == tag && this.data == data && expiresAt == None && this.home == home
    {
      this.tag, this.data, expiresAt, this.home := tag, data, None, home;
    }

    /** The tag tells the type of the data, and a list's window lies within its array. */
    ghost predicate Consistent()
      reads this
    {
      match data
      case Text(_) => tag == TypeString
      case Window(s) => tag == TypeList && s.Fits()
      case Table(_) => tag == TypeHash
    }

    /** The backing array, if the value is a list. */
    ghost function Backing(): set<object>
      reads this
    {
      if data.Window? then {data.slice.arr} else {}
    }

    ghost function View(): Val
      requires Consistent()
      reads this, Backing()
    {
      Val(match data
          case Text(t) => Str(t)
          case Window(s) => List(s.Elements())
          case Table(h) => Hash(h),
          expiresAt)
    }

    predicate IsExpired(now: int)
      reads this
    {
      expiresAt.Some? && now > expiresAt.value
    }
  }

  class Store {
    var data: seq<map<Bytes, Value>>
    var aof: seq<Command>
    ghost var model: State
    ghost var user: map<object, Value>
    ghost var Repr: set<object>

    /** Heap and model agree on a key; its value and backing array belong to that key alone. */
    ghost predicate Holds(i: DbIndex, k: Bytes)
      requires |data| == DATABASES
      reads this, Repr
    {
      && (k in data[i] <==> k in model[i])
      && (k in data[i] ==>
            var v := data[i][k];
            && v in Repr && v.home == Home(i, k) && v.Consistent()
            && (v.data.Window? ==> v.data.slice.arr in Repr && v.data.slice.arr in user && user[v.data.slice.arr] == v)
            && v.View() == model[i][k])
    }

    ghost predicate Valid()
      reads this, Repr
    {
      this in Repr && |data| == DATABASES && forall i: DbIndex, k :: Holds(i, k)
    }

    constructor ()
      ensures Valid() && fresh(Repr) && model == EMPTY && aof == []
    {
      data := seq(DATABASES, _ => map[]);
      aof, model, user, Repr := [], EMPTY, map[], {this};
      new;
      assert forall i: DbIndex :: EMPTY[i] == map[];
    }

    /** Two keys never share a value object or a backing array. */
    lemma NoSharing(i: DbIndex, k: Bytes, j: DbIndex, l: Bytes)
      requires Valid() && k in data[i] && l in data[j] && (i != j || k != l)
      ensures data[i][k] != data[j][l]
      ensures data[i][k].Backing() !! data[j][l].Backing()
    {
      assert Holds(i, k) && Holds(j, l);
    }

    /** A value's tag never disagrees with its data, so a checked tag makes the type assertion safe. */
    lemma TagsAgree(i: DbIndex, k: Bytes)
      requires Valid() && k in data[i]
      ensures data[i][k].tag == TypeString <==> data[i][k].data.Text?
      ensures data[i][k].tag == TypeList <==> data[i][k].data.Window?
      ensures data[i][k].tag == TypeHash <==> data[i][k].data.Table?
    {
      assert Holds(i, k);
    }

    // ----- Steps that operations are made of -----

    /** Every key but one is in order. */
    ghost predicate HoldsElsewhere(i: DbIndex, key: Bytes)
      reads this, Repr
    {
      this in Repr && |data| == DATABASES && forall j: DbIndex, k :: (j != i || k != key) ==> Holds(j, k)
    }

    /** The key holds v, whose data is about to be replaced. */
    ghost predicate Keeps(i: DbIndex, key: Bytes, v: Value)
      reads this, v
    {
      && |data| == DATABASES && key in data[i] && data[i][key] == v && v in Repr && v.home == Home(i, key)
      && key in model[i] && model[i][key].deadline == v.expiresAt
    }

    lemma EverywhereElseAndHere(i: DbIndex, key: Bytes)
      requires HoldsElsewhere(i, key) && Holds(i, key)
      ensures Valid()
    {
      hide Holds;
    }

    /** A new value and its array join the footprint; no key holds them yet. */
    method Adopt(v: Value)
      requires Valid() && v !in Repr && (v.data.Window? ==> v.data.slice.arr !in Repr)
      modifies this
      ensures Valid() && Repr == old(Repr) + {v} + v.Backing() && data == old(data) && model == old(model) && aof == old(aof)
      ensures user == if v.data.Window? then old(user)[v.data.slice.arr := v] else old(user)
    {
      Repr := Repr + {v} + v.Backing();
      user := if v.data.Window? then user[v.data.slice.arr := v] else user;
      forall j: DbIndex, k
        ensures Holds(j, k)
      {
        assert old(Holds(j, k));
      }
    }

    /** The map, the model and the footprint with the value in place; the other keys are as they were. */
    method Insert(i: DbIndex, key: Bytes, v: Value)
      requires Valid() && v.Consistent() && v !in Repr
      requires v.data.Window? ==> v.data.slice.arr !in Repr
      modifies this
      ensures HoldsElsewhere(i, key)
      ensures Repr == old(Repr) + {v} + v.Backing() && data == old(data)[i := old(data)[i][key := v]]
      ensures user == if v.data.Window? then old(user)[v.data.slice.arr := v] else old(user)
      ensures model == old(model)[i := old(model)[i][key := v.View()]] && aof == old(aof)
    {
      Adopt(v);
      label Adopted:
      data := data[i := data[i][key := v]];
      model := model[i := model[i][key := v.View()]];
      hide Value.View, Value.Consistent;
      forall j: DbIndex, k | j != i || k != key
        ensures Holds(j, k)
      {
        assert old@Adopted(Holds(j, k));
      }
    }

    /** s.data[i][key] = value, for a value no other key holds. */
    method Put(i: DbIndex, key: Bytes, v: Value)
      requires Valid() && v.Consistent() && v !in Repr && v.home == Home(i, key)
      requires v.data.Window? ==> v.data.slice.arr !in Repr
      modifies this
      ensures Valid() && Repr == old(Repr) + {v} + v.Backing() && data == old(data)[i := old(data)[i][key := v]]
      ensures model == old(model)[i := old(model)[i][key := v.View()]] && aof == old(aof)
    {
      Insert(i, key, v);
      assert Holds(i, key);
      EverywhereElseAndHere(i, key);
    }

    /** An array joins the footprint as that of v, unless it is v's already. */
    method AdoptArray(i: DbIndex, key: Bytes, v: Value, arr: array<Bytes>)
      requires HoldsElsewhere(i, key) && v in Repr && v.home == Home(i, key)
      requires arr !in Repr || (arr in user && user[arr] == v)
      modifies this
      ensures HoldsElsewhere(i, key) && Repr == old(Repr) + {arr} && user == old(user)[arr := v]
      ensures data == old(data) && model == old(model) && aof == old(aof)
    {
      Repr := Repr + {arr};
      user := user[arr := v];
      forall j: DbIndex, k | j != i || k != key
        ensures Holds(j, k)
      {
        assert old(Holds(j, k));
      }
    }

    /** The value, the model and the footprint with the new data; the other keys are as they were. */
    method Replace(i: DbIndex, key: Bytes, v: Value, p: Payload)
      requires HoldsElsewhere(i, key) && Keeps(i, key, v)
      requires p.Window? ==> p.slice.arr !in Repr || (p.slice.arr in user && user[p.slice.arr] == v)
      requires match p
               case Text(_) => v.tag == TypeString
               case Table(_) => v.tag == TypeHash
               case Window(s) => v.tag == TypeList && s.Fits()
      modifies this, v
      ensures HoldsElsewhere(i, key) && Keeps(i, key, v) && v.Consistent()
      ensures v.data == p && v.tag == old(v.tag) && v.expiresAt == old(v.expiresAt)
      ensures Repr == old(Repr) + v.Backing() && aof == old(aof) && data == old(data)
      ensures user == if p.Window? then old(user)[p.slice.arr := v] else old(user)
      ensures model == old(model)[i := old(model)[i][key := v.View()]]
    {
      if p.Window? {
        AdoptArray(i, key, v, p.slice.arr);
      }
      label Adopted:
      v.data := p;
      model := model[i := model[i][key := v.View()]];
      hide Value.Consistent, Value.View;
      forall j: DbIndex, k | j != i || k != key
        ensures Holds(j, k)
      {
        assert old@Adopted(Holds(j, k));
      }
    }

    /** value.Data = p, for a window over the value's own array or over one that no key uses. */
    method Assign(i: DbIndex, key: Bytes, v: Value, p: Payload)
      requires HoldsElsewhere(i, key) && Keeps(i, key, v)
      requires match p
               case Text(_) => v.tag == TypeString
               case Table(_) => v.tag == TypeHash
               case Window(s) => v.tag == TypeList && s.Fits() && (s.arr !in Repr || (s.arr in user && user[s.arr] == v))
      modifies this, v
      ensures Valid() && v.Consistent() && v.data == p && v.tag == old(v.tag) && v.expiresAt == old(v.expiresAt)
      ensures Repr == old(Repr) + v.Backing() && aof == old(aof) && data == old(data)
      ensures model == old(model)[i := old(model)[i][key := v.View()]]
    {
      Replace(i, key, v, p);
      assert Holds(i, key);
      EverywhereElseAndHere(i, key);
    }

    /** delete(s.data[i], key) */
    method DelKey(i: DbIndex, key: Bytes)
      requires Valid()
      modifies this
      ensures Valid() && Repr == old(Repr) && aof == old(aof)
      ensures model == old(model)[i := old(model)[i] - {key}]
      ensures data == old(data)[i := old(data)[i] - {key}]
    {
      data := data[i := data[i] - {key}];
      model := model[i := model[i] - {key}];
      forall j: DbIndex, k
        ensures Holds(j, k)
      {
        assert old(Holds(j, k));
      }
    }

    /** appendAOF */
    method Send(entry: Command)
      requires Valid()
      modifies this`aof
      ensures Valid() && aof == old(aof) + [entry]
    {
      aof := aof + [entry];
      forall j: DbIndex, k
        ensures Holds(j, k)
      {
        assert old(Holds(j, k));
      }
    }

    /** The store went from one model state to the next as the operation prescribes, with its log entries and its reply. */
    ghost predicate Did(s: State, log: seq<Command>, op: Op, now: int, reply: Reply)
      reads this
    {
      model == After(s, op, now) && aof == log + LogOf(s, op, now) && reply == ReplyTo(s, op, now)
    }

    // ----- Strings -----

    /** The time to live that EX or PX asks for, set on a value that is not stored yet, and its log entry. */
    method Stamp(i: DbIndex, key: Bytes, v: Value, o: SetOptions, now: int)
      requires Valid() && v !in Repr && v.expiresAt == None
      modifies this`aof, v`expiresAt
      ensures Valid()
      ensures v.expiresAt == if o.ex > 0 then Some(now + Wrap64(o.ex * SECOND))
                             else if o.px > 0 then Some(now + Wrap64(o.px * MILLISECOND)) else None
      ensures aof == old(aof) + if o.ex > 0 then [Entry(EXPIRE, i, [key, Itoa(o.ex)])]
                                else if o.px > 0 then [Entry(EXPIRE, i, [key, Itoa(o.px / 1000)])] else []
    {
      hide Itoa, Spelling, Entry, Wrap64;
      if o.ex > 0 {
        v.expiresAt := Some(now + Wrap64(o.ex * SECOND));
      } else if o.px > 0 {
        v.expiresAt := Some(now + Wrap64(o.px * MILLISECOND));
      }
      forall j: DbIndex, k
        ensures Holds(j, k)
      {
        assert old(Holds(j, k));
      }
      if o.ex > 0 {
        Send(Entry(EXPIRE, i, [key, Itoa(o.ex)]));
      } else if o.px > 0 {
        Send(Entry(EXPIRE, i, [key, Itoa(o.px / 1000)]));
      }
    }

    method Set(i: DbIndex, key: Bytes, value: Bytes, o: SetOptions, now: int) returns (ok: bool)
      requires Valid()
      modifies Repr
      ensures Valid() && fresh(Repr - old(Repr))
      ensures Did(old(model), old(aof), On(i, KeyOp.Set(key, value, o)), now, Flag(ok))
    {
      hide Itoa, Spelling, Entry, Wrap64, After, LogOf, ReplyTo, Run, RunSet, TtlOf;
      SetStep(model, i, key, value, o, now);
      SetCases(model[i], i, key, value, o, now);
      assert Holds(i, key);
      if o.nx && key in data[i] && !data[i][key].IsExpired(now) {
        return false;
      }
      if o.xx && (key !in data[i] || data[i][key].IsExpired(now)) {
        return false;
      }
      Send(Entry(SET, i, [key, value]));
      var v := new Value(TypeString, Text(value), Home(i, key));
      Stamp(i, key, v, o, now);
      Put(i, key, v);
      ok := true;
    }

    method Del(i: DbIndex, key: Bytes)
      requires Valid()
      modifies Repr
      ensures Valid() && Repr == old(Repr)
      ensures Did(old(model), old(aof), On(i, KeyOp.Del(key)), 0, Done)
    {
      hide Itoa, Spelling;
      DelKey(i, key);
      Send(Entry(DEL, i, [key]));
    }

    method Expire(i: DbIndex, key: Bytes, ttl: int, now: int) returns (ok: bool)
      requires Valid()
      modifies Repr
      ensures Valid() && Repr == old(Repr)
      ensures Did(old(model), old(aof), On(i, KeyOp.Expire(key, ttl)), now, Flag(ok))
    {
      hide Itoa, Spelling, WholeSeconds;
      assert Holds(i, key);
      if key !in data[i] {
        return false;
      }
      var v := data[i][key];
      v.expiresAt := Some(now + ttl);
      model := model[i := model[i][key := v.View()]];
      forall j: DbIndex, k
        ensures Holds(j, k)
      {
        assert old(Holds(j, k));
      }
      Send(Entry(EXPIRE, i, [key, Itoa(WholeSeconds(ttl))]));
      ok := true;
    }

    /** INCR and DECR; the type assertion on the data cannot fail because the tag has been tested. */
    method Count(i: DbIndex, key: Bytes, up: bool) returns (reply: Reply)
      requires Valid()
      modifies Repr
      ensures Valid() && fresh(Repr - old(Repr))
      ensures Did(old(model), old(aof), On(i, if up then KeyOp.Incr(key) else KeyOp.Decr(key)), 0, reply)
    {
      hide Itoa, Spelling, Entry, Wrap64, Atoi, Digit, After, LogOf, ReplyTo, Run;
      CountStep(model, i, key, up);
      assert Holds(i, key);
      var v;
      if key in data[i] {
        v := data[i][key];
      } else {
        v := new Value(TypeString, Text([Digit(0)]), Home(i, key));
      }
      if v.tag != TypeString {
        return Failure(NotInteger);
      }
      var n := Atoi(v.data.text);
      if n.None? {
        return Failure(NotInteger);
      }
      var m := Wrap64(n.value + if up then 1 else -1);
      if key in data[i] {
        Assign(i, key, v, Text(Itoa(m)));
      } else {
        v.data := Text(Itoa(m));
        Put(i, key, v);
      }
      Send(Entry(if up then INCR else DECR, i, [key]));
      reply := Number(m);
    }

    /** SETNX: the existence test and the SET take the lock separately; here nothing runs in between. */
    method SetNX(i: DbIndex, key: Bytes, value: Bytes, now: int) returns (n: int)
      requires Valid()
      modifies Repr
      ensures Valid() && fresh(Repr - old(Repr))
      ensures Did(old(model), old(aof), On(i, KeyOp.SetNX(key, value)), now, Number(n))
    {
      hide Itoa, Spelling;
      assert Holds(i, key);
      if key in data[i] && !data[i][key].IsExpired(now) {
        return 0;
      }
      var ok := Set(i, key, value, NO_OPTIONS, now);
      n := if ok then 1 else 0;
    }

    // ----- Lists -----

    /** list = append(list, values...), in the list's own array when there is room. */
    method ExtendList(i: DbIndex, key: Bytes, v: Value, more: Slice, spare: nat)
      requires Valid() && key in data[i] && data[i][key] == v && v.data.Window?
      requires more.Fits() && more.arr !in Repr
      modifies Repr
      ensures Valid() && fresh(Repr - old(Repr)) && aof == old(aof)
      ensures v.Consistent() && v.data.Window?
      ensures old(v.Consistent()) && v.data.slice.Elements() == old(v.data.slice.Elements()) + old(more.Elements())
      ensures model == old(model)[i := old(model)[i][key := v.View()]] && v.expiresAt == old(v.expiresAt)
    {
      assert Holds(i, key);
      var list := Append(v.data.slice, more, spare);
      forall j: DbIndex, k | j != i || k != key
        ensures Holds(j, k)
      {
        assert old(Holds(j, k));
      }
      Assign(i, key, v, Window(list));
    }

    method RPush(i: DbIndex, key: Bytes, values: array<Bytes>, spare: nat) returns (reply: Reply)
      requires Valid() && values !in Repr
      modifies Repr
      ensures Valid() && fresh(Repr - old(Repr) - {values})
      ensures Did(old(model), old(aof), On(i, KeyOp.RPush(key, old(values[..]))), 0, reply)
    {
      hide Itoa, Spelling, Entry, Reversed, After, LogOf, ReplyTo, Run;
      PushStep(model, i, key, values[..], false);
      assert Holds(i, key);
      var entry := Entry(RPUSH, i, [key] + values[..]);
      assert Slices.Whole(values).Elements() == values[..];
      if key !in data[i] {
        Send(entry);
        var v := new Value(TypeList, Window(Slices.Whole(values)), Home(i, key));
        Put(i, key, v);
        return Number(values.Length);
      }
      var v := data[i][key];
      if v.tag != TypeList {
        return Failure(WrongType);
      }
      Send(entry);
      ExtendList(i, key, v, Slices.Whole(values), spare);
      reply := Number(v.data.slice.len);
    }

    /** list = append(values, list...): the arguments' array, or a new one, becomes the list's. */
    method PrependList(i: DbIndex, key: Bytes, v: Value, front: Slice, spare: nat)
      requires Valid() && key in data[i] && data[i][key] == v && v.data.Window?
      requires front.Fits() && front.arr !in Repr
      modifies Repr, front.arr
      ensures Valid() && fresh(Repr - old(Repr) - {front.arr}) && aof == old(aof)
      ensures v.Consistent() && v.data.Window?
      ensures old(v.Consistent()) && v.data.slice.Elements() == old(front.Elements()) + old(v.data.slice.Elements())
      ensures model == old(model)[i := old(model)[i][key := v.View()]] && v.expiresAt == old(v.expiresAt)
    {
      assert Holds(i, key);
      var list := Append(front, v.data.slice, spare);
      forall j: DbIndex, k | j != i || k != key
        ensures Holds(j, k)
      {
        assert old(Holds(j, k));
      }
      Assign(i, key, v, Window(list));
    }

    /** slice.Reverse on the arguments of the call, which no key uses yet. */
    method ReverseArguments(values: array<Bytes>)
      requires Valid() && values !in Repr
      modifies values
      ensures Valid() && values[..] == Reversed(old(values[..]))
    {
      if values.Length > 1 {
        Reverse(values);
      } else {
        ReversedShort(values[..]);
      }
      forall j: DbIndex, k
        ensures Holds(j, k)
      {
        assert old(Holds(j, k));
      }
    }

    method LPush(i: DbIndex, key: Bytes, values: array<Bytes>, spare: nat) returns (reply: Reply)
      requires Valid() && values !in Repr
      modifies Repr, values
      ensures Valid() && fresh(Repr - old(Repr) - {values})
      ensures Did(old(model), old(aof), On(i, KeyOp.LPush(key, old(values[..]))), 0, reply)
    {
      hide Itoa, Spelling, Entry, Reversed, After, LogOf, ReplyTo, Run;
      PushStep(model, i, key, values[..], true);
      var entry := Entry(LPUSH, i, [key] + values[..]);
      ReverseArguments(values);
      assert Holds(i, key);
      assert Slices.Whole(values).Elements() == values[..];
      if key !in data[i] {
        Send(entry);
        var v := new Value(TypeList, Window(Slices.Whole(values)), Home(i, key));
        Put(i, key, v);
        return Number(values.Length);
      }
      var v := data[i][key];
      if v.tag != TypeList {
        return Failure(WrongType);
      }
      Send(entry);
      PrependList(i, key, v, Slices.Whole(values), spare);
      reply := Number(v.data.slice.len);
    }

    // ----- Pops and trims: the window moves, the array stays -----

    /** value.Data = list[from:to] */
    method Narrow(i: DbIndex, key: Bytes, v: Value, from: nat, to: nat)
      requires Valid() && key in data[i] && data[i][key] == v && v.data.Window?
      requires from <= to <= v.data.slice.len
      modifies Repr
      ensures Valid() && Repr == old(Repr) && aof == old(aof)
      ensures key in old(model)[i] && old(model)[i][key].data.List? && to <= |old(model)[i][key].data.items|
      ensures model == old(model)[i := old(model)[i][key :=
                old(model)[i][key].(data := List(old(model)[i][key].data.items[from..to]))]]
    {
      assert Holds(i, key);
      var kept := v.data.slice.Sub(from, to);
      v.data.slice.SubElements(from, to);
      forall j: DbIndex, k | j != i || k != key
        ensures Holds(j, k)
      {
      }
      Assign(i, key, v, Window(kept));
    }

    /** The value of a live list, or the reply that ends a pop early. */
    method ListToPop(i: DbIndex, key: Bytes, count: Option<int>, left: bool, now: int) returns (v: Value?, c: nat, early: Reply)
      requires Valid()
      ensures v == null ==> RunPop(model[i], i, key, count, left, now) == Effect(model[i], [], early)
      ensures v != null ==>
                && key in data[i] && data[i][key] == v && v.data.Window? && v.Consistent()
                && key in model[i] && model[i][key].data == List(v.data.slice.Elements()) && 0 < v.data.slice.len
                && c <= v.data.slice.len && (count.None? ==> c > 0)
                && RunPop(model[i], i, key, count, left, now) == Popped(model[i], i, key, c, count.None?, left)
    {
      hide Itoa, Spelling, Popped;
      assert Holds(i, key);
      v, c, early := null, 0, Nil;
      if key !in data[i] || data[i][key].IsExpired(now) {
        return;
      }
      if count.Some? && count.value < 0 {
        early := Failure(OutOfRange);
        return;
      }
      if data[i][key].tag != TypeList {
        early := Failure(WrongType);
        return;
      }
      var n := data[i][key].data.slice.len;
      if n > 0 {
        v := data[i][key];
        c := if count.Some? then count.value else 1;
        if c > n {
          c := n;
        }
        PopEffect(model[i], i, key, count, left, now);
      }
    }

    method LPop(i: DbIndex, key: Bytes, count: Option<int>, now: int) returns (reply: Reply)
      requires Valid()
      modifies Repr
      ensures Valid() && Repr == old(Repr)
      ensures Did(old(model), old(aof), On(i, KeyOp.LPop(key, count)), now, reply)
    {
      hide Itoa, Spelling, RunPop, After, LogOf, ReplyTo;
      PopStep(model, i, KeyOp.LPop(key, count), now, RunPop(model[i], i, key, count, true, now));
      var v, c;
      v, c, reply := ListToPop(i, key, count, true, now);
      if v == null {
        assert model == model[i := model[i]] && aof + [] == aof;
        return;
      }
      var list := v.data.slice;
      var popped := list.Sub(0, c);
      list.SubElements(0, c);
      reply := PopReply(popped, count.None?);
      Narrow(i, key, v, c, list.len);
      Send(Entry(LPOP, i, [key, Itoa(c)]));
    }

    method RPop(i: DbIndex, key: Bytes, count: Option<int>, now: int) returns (reply: Reply)
      requires Valid()
      modifies Repr
      ensures Valid() && Repr == old(Repr)
      ensures Did(old(model), old(aof), On(i, KeyOp.RPop(key, count)), now, reply)
    {
      hide Itoa, Spelling, RunPop, After, LogOf, ReplyTo;
      PopStep(model, i, KeyOp.RPop(key, count), now, RunPop(model[i], i, key, count, false, now));
      var v, c;
      v, c, reply := ListToPop(i, key, count, false, now);
      if v == null {
        assert model == model[i := model[i]] && aof + [] == aof;
        return;
      }
      var list := v.data.slice;
      var cut := list.len - c;
      var popped := list.Sub(cut, list.len);
      list.SubElements(cut, list.len);
      reply := PopReply(popped, count.None?);
      Narrow(i, key, v, 0, cut);
      Send(Entry(RPOP, i, [key, Itoa(c)]));
    }

    /** The index adjustments that LTRIM and LRANGE share. */
    method Adjust(n: nat, start: int, stop: int) returns (s: int, e: int)
      ensures (s, e) == Keyspace.Window(n, start, stop)
    {
      s, e := start, stop;
      if s < 0 {
        s := n + s;
      }
      if e < 0 {
        e := n + e;
      }
      if s < 0 {
        s := 0;
      }
      if e >= n {
        e := n - 1;
      }
    }

    method LTrim(i: DbIndex, key: Bytes, start: int, stop: int, now: int)
      requires Valid()
      modifies Repr
      ensures Valid() && Repr == old(Repr)
      ensures Did(old(model), old(aof), On(i, KeyOp.LTrim(key, start, stop)), now, Done)
    {
      hide Itoa, Spelling, Keyspace.Window;
      assert Holds(i, key);
      if key !in data[i] || data[i][key].IsExpired(now) || data[i][key].tag != TypeList {
        return;
      }
      var v := data[i][key];
      var n := v.data.slice.len;
      var s, e := Adjust(n, start, stop);
      if s > e || s >= n {
        DelKey(i, key);
        Send(Entry(DEL, i, [key]));
        return;
      }
      Narrow(i, key, v, s, e + 1);
      Send(Entry(LTRIM, i, [key, Itoa(s), Itoa(e)]));
    }

    /** The elements between two indices; nothing changes. */
    method LRange(i: DbIndex, key: Bytes, start: int, stop: int, now: int) returns (reply: Reply)
      requires Valid()
      ensures reply == Range(model[i], key, start, stop, now)
    {
      hide Keyspace.Window;
      assert Holds(i, key);
      if key !in data[i] || data[i][key].IsExpired(now) {
        return Nil;
      }
      if data[i][key].tag != TypeList {
        return Failure(WrongType);
      }
      var list := data[i][key].data.slice;
      var s, e := Adjust(list.len, start, stop);
      if s > e || s >= list.len || e < 0 {
        return Many([]);
      }
      var part := list.Sub(s, e + 1);
      list.SubElements(s, e + 1);
      reply := Many(part.Elements());
    }

    method GetRange(i: DbIndex, key: Bytes, start: int, stop: int, now: int) returns (reply: Reply)
      requires Valid()
      ensures reply == Substring(model[i], key, start, stop, now)
    {
      hide Keyspace.Window;
      assert Holds(i, key);
      if key !in data[i] || data[i][key].IsExpired(now) {
        return Failure(NoSuchKey);
      }
      if data[i][key].tag != TypeString {
        return Failure(WrongType);
      }
      var text := data[i][key].data.text;
      var s, e := Adjust(|text|, start, stop);
      reply := One(if s > e then [] else text[s..e + 1]);
    }

    // ----- Keys -----

    /** s.data[i][newKey] = s.data[i][oldKey]; delete(s.data[i], oldKey): the same value object under its new name. */
    method Move(i: DbIndex, oldKey: Bytes, newKey: Bytes)
      requires Valid() && oldKey in data[i]
      modifies Repr
      ensures Valid() && Repr == old(Repr) && aof == old(aof)
      ensures oldKey in old(model)[i]
      ensures model == old(model)[i := old(model)[i][newKey := old(model)[i][oldKey]] - {oldKey}]
    {
      assert Holds(i, oldKey);
      var v := data[i][oldKey];
      data := data[i := data[i][newKey := v]];
      data := data[i := data[i] - {oldKey}];
      model := model[i := model[i][newKey := model[i][oldKey]] - {oldKey}];
      v.home := Home(i, newKey);
      hide Value.Consistent, Value.View;
      forall j: DbIndex, k
        ensures Holds(j, k)
      {
        assert old(Holds(j, k));
        if !(j == i && k == newKey) {
          assert k in data[j] ==> data[j][k] == old(data[j][k]) && data[j][k] != v;
        }
      }
    }

    method Rename(i: DbIndex, oldKey: Bytes, newKey: Bytes, now: int) returns (reply: Reply)
      requires Valid()
      modifies Repr
      ensures Valid() && Repr == old(Repr)
      ensures Did(old(model), old(aof), On(i, KeyOp.Rename(oldKey, newKey)), now, reply)
    {
      hide Itoa, Spelling;
      assert Holds(i, oldKey);
      if oldKey !in data[i] {
        return Failure(NoSuchKey);
      }
      if data[i][oldKey].IsExpired(now) {
        return Done;
      }
      Move(i, oldKey, newKey);
      Send(Entry(RENAME, i, [oldKey, newKey]));
      reply := Done;
    }

    // ----- Hashes -----

    /** A live hash to write to: the one under the key, or a new one where the key is missing or expired. */
    method FreshHash(i: DbIndex, key: Bytes) returns (v: Value)
      requires Valid()
      modifies Repr
      ensures Valid() && fresh(Repr - old(Repr)) && aof == old(aof)
      ensures key in data[i] && data[i][key] == v && v.data == Table(map[])
      ensures model == old(model)[i := old(model)[i][key := Val(Hash(map[]), None)]]
    {
      if key in data[i] {
        DelKey(i, key);
        assert (old(model)[i] - {key})[key := Val(Hash(map[]), None)] == old(model)[i][key := Val(Hash(map[]), None)];
      }
      v := new Value(TypeHash, Table(map[]), Home(i, key));
      Put(i, key, v);
      assert Holds(i, key);
    }

    method HSet(i: DbIndex, key: Bytes, fields: FieldMap, now: int) returns (reply: Reply)
      requires Valid()
      modifies Repr
      ensures Valid() && fresh(Repr - old(Repr))
      ensures Did(old(model), old(aof), On(i, KeyOp.HSet(key, fields)), now, reply)
    {
      hide Itoa, Spelling, Flatten, RunHSet, After, LogOf, ReplyTo;
      HSetStep(model, i, key, fields, now);
      assert Holds(i, key);
      if key in data[i] && !data[i][key].IsExpired(now) {
        if data[i][key].tag != TypeHash {
          assert model == model[i := model[i]] && aof + [] == aof;
          return Failure(WrongType);
        }
        reply := Overwrite(i, key, data[i][key], fields);
      } else {
        reply := WriteFresh(i, key, fields);
      }
    }

    method WriteFresh(i: DbIndex, key: Bytes, fields: FieldMap) returns (reply: Reply)
      requires Valid()
      modifies Repr
      ensures Valid() && fresh(Repr - old(Repr)) && aof == old(aof) + [Entry(HSET, i, [key] + Flatten(fields))]
      ensures model == old(model)[i := old(model)[i][key := Val(Hash(map[] + fields), None)]]
      ensures reply == Number(|fields.Keys - NO_FIELDS.Keys|)
    {
      hide Itoa, Spelling, Flatten;
      var v := FreshHash(i, key);
      reply := Overwrite(i, key, v, fields);
      ghost var db := old(model)[i];
      assert db[key := Val(Hash(map[]), None)][key := Val(Hash(map[] + fields), None)] == db[key := Val(Hash(map[] + fields), None)];
    }

    method Overwrite(i: DbIndex, key: Bytes, v: Value, fields: FieldMap) returns (reply: Reply)
      requires Valid() && key in data[i] && data[i][key] == v && v.data.Table?
      modifies Repr
      ensures Valid() && Repr == old(Repr) && aof == old(aof) + [Entry(HSET, i, [key] + Flatten(fields))]
      ensures key in old(model)[i] && old(model)[i][key].data.Hash?
      ensures var prior := old(model)[i][key];
              && model == old(model)[i := old(model)[i][key := prior.(data := Hash(prior.data.fields + fields))]]
              && reply == Number(|fields.Keys - prior.data.fields.Keys|)
    {
      hide Itoa, Spelling, Flatten;
      assert Holds(i, key);
      var hash, added := WriteFields(v.data.fields, fields);
      Rewrite(i, key, v, Table(hash));
      Send(Entry(HSET, i, [key] + Flatten(fields)));
      reply := Number(added);
    }

    /** value.Data = p for data that is not a list. */
    method Rewrite(i: DbIndex, key: Bytes, v: Value, p: Payload)
      requires Valid() && key in data[i] && data[i][key] == v && v.data.Table? && p.Table?
      modifies Repr
      ensures Valid() && Repr == old(Repr) && aof == old(aof)
      ensures key in old(model)[i]
      ensures model == old(model)[i := old(model)[i][key := old(model)[i][key].(data := Hash(p.fields))]]
    {
      assert Holds(i, key);
      forall j: DbIndex, k | j != i || k != key
        ensures Holds(j, k)
      {
      }
      Assign(i, key, v, p);
    }

    method HDel(i: DbIndex, key: Bytes, names: seq<Bytes>, now: int) returns (reply: Reply)
      requires Valid()
      modifies Repr
      ensures Valid() && Repr == old(Repr)
      ensures Did(old(model), old(aof), On(i, KeyOp.HDel(key, names)), now, reply)
    {
      hide Itoa, Spelling, WithoutFields, After, LogOf, ReplyTo;
      HDelStep(model, i, key, names, now);
      assert Holds(i, key);
      if key !in data[i] {
        assert model == model[i := model[i]] && aof + [] == aof;
        reply := Number(0);
      } else if data[i][key].IsExpired(now) {
        DelKey(i, key);
        assert aof + [] == aof;
        reply := Number(0);
      } else if data[i][key].tag != TypeHash {
        assert model == model[i := model[i]] && aof + [] == aof;
        reply := Failure(WrongType);
      } else {
        reply := DropFrom(i, key, data[i][key], names);
      }
    }

    method DropFrom(i: DbIndex, key: Bytes, v: Value, names: seq<Bytes>) returns (reply: Reply)
      requires Valid() && key in data[i] && data[i][key] == v && v.data.Table?
      modifies Repr
      ensures Valid() && Repr == old(Repr)
      ensures key in old(model)[i] && old(model)[i][key].data.Hash?
      ensures var db := old(model)[i];
              var prior := db[key].data.fields;
              var rest := WithoutFields(prior, names);
              && model == old(model)[i := if rest == map[] then db - {key} else db[key := db[key].(data := Hash(rest))]]
              && aof == old(aof) + (if rest != prior then [Entry(HDEL, i, [key] + names)] else [])
              && reply == Number(|prior.Keys - rest.Keys|)
    {
      hide Itoa, Spelling, WithoutFields;
      assert Holds(i, key);
      var prior := v.data.fields;
      var hash, deleted := DropFields(prior, names);
      NothingDropped(prior, names);
      if hash == map[] {
        DelKey(i, key);
      } else {
        Rewrite(i, key, v, Table(hash));
      }
      if deleted > 0 {
        Send(Entry(HDEL, i, [key] + names));
      } else {
        assert aof + [] == aof;
      }
      reply := Number(deleted);
    }

    // ----- Flushes -----

    method FlushDb(i: DbIndex)
      requires Valid()
      modifies Repr
      ensures Valid() && Repr == old(Repr)
      ensures Did(old(model), old(aof), On(i, KeyOp.FlushDb), 0, Done)
    {
      hide Itoa, Spelling;
      Clear(i);
      Send(Entry(FLUSHDB, i, []));
    }

    /** flushDb */
    method Clear(i: DbIndex)
      requires Valid()
      modifies Repr
      ensures Valid() && Repr == old(Repr) && aof == old(aof) && model == old(model)[i := map[]]
    {
      data := data[i := map[]];
      model := model[i := map[]];
      forall j: DbIndex, k
        ensures Holds(j, k)
      {
        assert old(Holds(j, k));
      }
    }

    method FlushEverything()
      requires Valid()
      modifies Repr
      ensures Valid() && Repr == old(Repr)
      ensures Did(old(model), old(aof), Op.FlushAll, 0, Done)
    {
      for n := 0 to DATABASES
        invariant Valid() && Repr == old(Repr) && aof == old(aof)
        invariant forall j: DbIndex :: j < n ==> model[j] == map[]
      {
        Clear(n);
      }
      AllEmpty(model);
      Send([Spelling(FLUSHALL)]);
    }
  }

  lemma AllEmpty(s: State)
    requires forall j: DbIndex :: s[j] == map[]
    ensures s == EMPTY
  {
    var e: State := EMPTY;
    forall j | 0 <= j < |s|
      ensures s[j] == e[j]
    {
      var d: DbIndex := j;
      assert s[d] == map[] && e[d] == map[];
    }
  }

  /** The database an HSET leaves, the value it works on given. */
  lemma HSetStep(s: State, i: DbIndex, key: Bytes, fields: FieldMap, now: int)
    ensures var op, e := On(i, KeyOp.HSet(key, fields)), RunHSet(s[i], i, key, fields, now);
            After(s, op, now) == s[i := e.db] && LogOf(s, op, now) == e.log && ReplyTo(s, op, now) == e.reply
    ensures RunHSet(s[i], i, key, fields, now) ==
            if Live(s[i], key, now) && !s[i][key].data.Hash? then Effect(s[i], [], Failure(WrongType))
            else
              var prior := if Live(s[i], key, now) then s[i][key] else Val(Hash(map[]), None);
              Effect(s[i][key := prior.(data := Hash(prior.data.fields + fields))],
                     [Entry(HSET, i, [key] + Flatten(fields))],
                     Number(|fields.Keys - prior.data.fields.Keys|))
  {
    hide Itoa, Spelling, Flatten;
  }

  /** What an HDEL does to the hash it finds. */
  lemma HDelStep(s: State, i: DbIndex, key: Bytes, names: seq<Bytes>, now: int)
    ensures var op, e := On(i, KeyOp.HDel(key, names)), RunHDel(s[i], i, key, names, now);
            After(s, op, now) == s[i := e.db] && LogOf(s, op, now) == e.log && ReplyTo(s, op, now) == e.reply
  {
    hide RunHDel;
  }

  lemma NothingDropped(h: FieldMap, names: seq<Bytes>)
    ensures |h.Keys - WithoutFields(h, names).Keys| == 0 <==> WithoutFields(h, names) == h
  {
    var r := WithoutFields(h, names);
    if h.Keys - r.Keys == {} {
      assert h.Keys <= r.Keys;
    }
  }

  /** What a pop returns: one element when no count was given, otherwise the popped slice. */
  function PopReply(popped: Slice, single: bool): (r: Reply)
    requires popped.Fits() && (single ==> popped.len > 0)
    reads popped.arr
    ensures r == if single then One(popped.Elements()[0]) else Many(popped.Elements())
  {
    if single then One(popped.arr[popped.off]) else Many(popped.Elements())
  }

  /** What a pop does once there is something to pop. */
  lemma PopEffect(db: Db, i: DbIndex, key: Bytes, count: Option<int>, left: bool, now: int)
    requires Live(db, key, now) && db[key].data.List? && db[key].data.items != [] && (count.Some? ==> count.value >= 0)
    ensures RunPop(db, i, key, count, left, now) == Popped(db, i, key, PopCount(count, |db[key].data.items|), count.None?, left)
  {
    hide Itoa, Spelling, Entry, PopCount;
    var items := db[key].data.items;
    var c := PopCount(count, |items|);
    CountFits(count, |items|);
    assert items[c..] == items[c..|items|] && items[..|items| - c] == items[0..|items| - c];
  }

  lemma CountFits(count: Option<int>, n: nat)
    requires n > 0 && (count.Some? ==> count.value >= 0)
    ensures PopCount(count, n) <= n && (count.None? ==> PopCount(count, n) == 1)
  {
  }

  function Popped(db: Db, i: DbIndex, key: Bytes, c: nat, single: bool, left: bool): Effect
    requires key in db && db[key].data.List? && c <= |db[key].data.items| && (single ==> c > 0)
  {
    var items := db[key].data.items;
    var n := |items|;
    var popped := if left then items[..c] else items[n - c..];
    var rest := if left then items[c..n] else items[0..n - c];
    Effect(db[key := db[key].(data := List(rest))],
           [Entry(if left then LPOP else RPOP, i, [key, Itoa(c)])],
           if single then One(popped[0]) else Many(popped))
  }

  lemma PushStep(s: State, i: DbIndex, key: Bytes, values: seq<Bytes>, left: bool)
    ensures var op, e := On(i, if left then KeyOp.LPush(key, values) else KeyOp.RPush(key, values)), RunPush(s[i], i, key, values, left);
            After(s, op, 0) == s[i := e.db] && LogOf(s, op, 0) == e.log && ReplyTo(s, op, 0) == e.reply
  {
    hide RunPush;
  }

  lemma SetStep(s: State, i: DbIndex, key: Bytes, value: Bytes, o: SetOptions, now: int)
    ensures var op, e := On(i, KeyOp.Set(key, value, o)), RunSet(s[i], i, key, value, o, now);
            After(s, op, now) == s[i := e.db] && LogOf(s, op, now) == e.log && ReplyTo(s, op, now) == e.reply
  {
    hide RunSet;
  }

  /** The outcomes of a SET: refused, with a time to live from EX or from PX, or without one. */
  lemma SetCases(db: Db, i: DbIndex, key: Bytes, value: Bytes, o: SetOptions, now: int)
    ensures var first, e := Entry(SET, i, [key, value]), RunSet(db, i, key, value, o, now);
            if SetRefused(db, key, o, now) then e == Effect(db, [], Flag(false))
            else if o.ex > 0 then
              e == Effect(db[key := Val(Str(value), Some(now + Wrap64(o.ex * SECOND)))], [first, Entry(EXPIRE, i, [key, Itoa(o.ex)])], Flag(true))
            else if o.px > 0 then
              e == Effect(db[key := Val(Str(value), Some(now + Wrap64(o.px * MILLISECOND)))], [first, Entry(EXPIRE, i, [key, Itoa(o.px / 1000)])], Flag(true))
            else e == Effect(db[key := Val(Str(value), None)], [first], Flag(true))
  {
    hide Entry, Itoa, Wrap64;
  }

  lemma CountStep(s: State, i: DbIndex, key: Bytes, up: bool)
    ensures var op := On(i, if up then KeyOp.Incr(key) else KeyOp.Decr(key));
            var e := RunCount(s[i], i, key, if up then INCR else DECR, if up then 1 else -1);
            After(s, op, 0) == s[i := e.db] && LogOf(s, op, 0) == e.log && ReplyTo(s, op, 0) == e.reply
  {
    hide RunCount;
  }

  lemma PopStep(s: State, i: DbIndex, op: KeyOp, now: int, e: Effect)
    requires op.LPop? || op.RPop?
    requires e == RunPop(s[i], i, op.key, op.count, op.LPop?, now)
    ensures After(s, On(i, op), now) == s[i := e.db] && LogOf(s, On(i, op), now) == e.log && ReplyTo(s, On(i, op), now) == e.reply
  {
    hide RunPop;
  }

  lemma ReversedShort(s: seq<Bytes>)
    requires |s| <= 1
    ensures Reversed(s) == s
  {
  }
}
