/**
 * The key-value connection handler of week1/tokio_tut/src/main.rs: every
 * decoded command of one connection is applied, in order, to the shared
 * `HashMap<String, Bytes>` and answered with one response frame. SET and GET
 * are served; any other command reaches `panic!`, which ends the handler.
 *
 * The map is the `Db` class below (the `Arc<Mutex<..>>` is one owner here);
 * `Run` is the specification of a whole connection, and `Db.Process` is the
 * loop proved against it.
 */
module KvServer {
  import opened Wrappers

  type byte = b: int | 0 <= b < 0x100
  type i64 = x: int | -0x8000_0000_0000_0000 <= x < 0x8000_0000_0000_0000

  type Key = string
  type Value = seq<byte>
  type Store = map<Key, Value>

  /** The protocol frames of the mini_redis crate. */
  datatype Frame =
    | Simple(text: string)
    | Error(message: string)
    | Integer(number: i64)
    | Bulk(data: Value)
    | Null
    | Array(items: seq<Frame>)

  /**
   * A command as `Command::from_frame` produces it. `Other` stands for every
   * command besides GET and SET (PUBLISH, SUBSCRIBE, PING, unknown names, ...).
   */
  datatype Command =
    | Get(key: Key)
    | Set(key: Key, value: Value)
    | Other(name: string)

  const OK := Simple("OK")

  /** The GET arm: `Bulk` of the bound value, or `Null` for an absent key. */
  function GetReply(store: Store, key: Key): (r: Frame)
    ensures r.Bulk? <==> key in store
    ensures r.Bulk? ==> r.data == store[key]
    ensures !r.Bulk? ==> r == Null
  {
    if key in store then Bulk(store[key]) else Null
  }

  /**
   * One pass of the loop body: the next store and the response frame, or
   * None where the source panics on an unsupported command.
   */
  function Step(store: Store, cmd: Command): (r: Option<(Store, Frame)>)
    ensures r.None? <==> cmd.Other?
    ensures r.Some? && cmd.Get? ==> r.value == (store, GetReply(store, cmd.key))
    ensures r.Some? && cmd.Set? ==> var next := r.value.0;
      && r.value.1 == OK
      && next.Keys == store.Keys + {cmd.key}
      && next[cmd.key] == cmd.value
      && forall k :: k in store && k != cmd.key ==> next[k] == store[k]
  {
    match cmd
    case Set(k, v) => Some((store[k := v], OK))
    case Get(k) => Some((store, GetReply(store, k)))
    case Other(_) => None
  }

  /** What a connection leaves behind: the store, the frames written, and whether it panicked. */
  datatype Session = Session(store: Store, responses: seq<Frame>, panicked: bool)

  /** The number of commands before the first unsupported one. */
  function SupportedPrefix(cmds: seq<Command>): (n: nat)
    ensures n <= |cmds|
    ensures forall i :: 0 <= i < n ==> !cmds[i].Other?
    ensures n < |cmds| ==> cmds[n].Other?
    decreases |cmds|
  {
    if cmds == [] || cmds[0].Other? then 0 else 1 + SupportedPrefix(cmds[1..])
  }

  /**
   * The commands of one connection, handled front to back until the first
   * unsupported one: one response for each command before it, and a panic
   * exactly when there is such a command.
   */
  function Run(store: Store, cmds: seq<Command>): (r: Session)
    ensures |r.responses| == SupportedPrefix(cmds)
    ensures r.panicked <==> SupportedPrefix(cmds) < |cmds|
    decreases |cmds|
  {
    if cmds == [] then Session(store, [], false)
    else match Step(store, cmds[0])
      case None => Session(store, [], true)
      case Some((next, reply)) =>
        var rest := Run(next, cmds[1..]);
        Session(rest.store, [reply] + rest.responses, rest.panicked)
  }

  /** Continuing a session with more commands: nothing more happens once it has panicked. */
  function Continue(s: Session, more: seq<Command>): Session {
    if s.panicked then s
    else var t := Run(s.store, more); Session(t.store, s.responses + t.responses, t.panicked)
  }

  /** Handling a + b is handling a, then (unless a panicked) handling b from where a left the store. */
  lemma {:induction false} RunAppend(store: Store, a: seq<Command>, b: seq<Command>)
    ensures Run(store, a + b) == Continue(Run(store, a), b)
    decreases |a|
  {
    if a == [] {
      assert a + b == b;
      assert [] + Run(store, b).responses == Run(store, b).responses;
    } else {
      assert (a + b)[0] == a[0];
      assert (a + b)[1..] == a[1..] + b;
      var step := Step(store, a[0]);
      if step.Some? {
        var (next, reply) := step.value;
        RunAppend(next, a[1..], b);
        var s := Run(next, a[1..]);
        if !s.panicked {
          var t := Run(s.store, b);
          assert [reply] + s.responses + t.responses == [reply] + (s.responses + t.responses);
        }
      }
    }
  }

  /**
   * The first unsupported command stops the connection: it gets no response,
   * nothing after it is handled, and the store is what the commands before
   * it made it.
   */
  lemma {:induction false} RunStopsAtFirstUnsupported(store: Store, cmds: seq<Command>)
    ensures var n := SupportedPrefix(cmds); var p := Run(store, cmds[..n]);
      && !p.panicked
      && |Run(store, cmds).responses| == n
      && Run(store, cmds) == Session(p.store, p.responses, n < |cmds|)
  {
    var n := SupportedPrefix(cmds);
    assert cmds == cmds[..n] + cmds[n..];
    RunAppend(store, cmds[..n], cmds[n..]);
    var p := Run(store, cmds[..n]);
    if n < |cmds| {
      assert cmds[n..][0] == cmds[n];
    } else {
      assert cmds[n..] == [];
    }
  }

  /** Every list of commands shorter than the supported prefix is wholly supported. */
  lemma SupportedPrefixOfPrefix(cmds: seq<Command>, k: nat)
    requires k <= SupportedPrefix(cmds)
    ensures SupportedPrefix(cmds[..k]) == k
  {
    assert forall i :: 0 <= i < k ==> cmds[..k][i] == cmds[i];
  }

  /**
   * The j-th response answers the j-th command, applied to the store that
   * the first j commands produced: one response per command, in order.
   */
  lemma RunResponseAt(store: Store, cmds: seq<Command>, j: nat)
    requires j < |Run(store, cmds).responses|
    ensures j < |cmds|
    ensures Step(Run(store, cmds[..j]).store, cmds[j])
         == Some((Run(store, cmds[..j + 1]).store, Run(store, cmds).responses[j]))
  {
    SupportedPrefixOfPrefix(cmds, j);
    SupportedPrefixOfPrefix(cmds, j + 1);
    RunExtend(store, cmds, j);
    RunPrefixResponses(store, cmds, j + 1);
  }

  /** The responses to a prefix begin the responses to the whole list: a written frame is never taken back. */
  lemma RunPrefixResponses(store: Store, cmds: seq<Command>, k: nat)
    requires k <= |cmds|
    ensures Run(store, cmds[..k]).responses <= Run(store, cmds).responses
  {
    assert cmds == cmds[..k] + cmds[k..];
    RunAppend(store, cmds[..k], cmds[k..]);
  }

  /** Handling a single command. */
  lemma RunOne(store: Store, cmd: Command)
    ensures Run(store, [cmd]) == match Step(store, cmd)
      case None => Session(store, [], true)
      case Some((next, reply)) => Session(next, [reply], false)
  {
    assert [cmd][1..] == [];
  }

  /** One more command handled after a prefix that did not panic. */
  lemma RunExtend(store: Store, cmds: seq<Command>, i: nat)
    requires i < |cmds| && !Run(store, cmds[..i]).panicked
    ensures var p := Run(store, cmds[..i]);
      Run(store, cmds[..i + 1]) == match Step(p.store, cmds[i])
        case None => Session(p.store, p.responses, true)
        case Some((next, reply)) => Session(next, p.responses + [reply], false)
  {
    RunAppend(store, cmds[..i], [cmds[i]]);
    assert cmds[..i] + [cmds[i]] == cmds[..i + 1];
    var p := Run(store, cmds[..i]);
    RunOne(p.store, cmds[i]);
    if Step(p.store, cmds[i]).None? {
      assert p.responses + [] == p.responses;
    }
  }

  /** A prefix that ends at the end of the list or just before an unsupported command decides the whole run. */
  lemma RunFinish(store: Store, cmds: seq<Command>, i: nat)
    requires i <= |cmds| && !Run(store, cmds[..i]).panicked
    requires i < |cmds| ==> cmds[i].Other?
    ensures var p := Run(store, cmds[..i]);
      Run(store, cmds) == Session(p.store, p.responses, i < |cmds|)
  {
    assert cmds == cmds[..i] + cmds[i..];
    RunAppend(store, cmds[..i], cmds[i..]);
    var p := Run(store, cmds[..i]);
    if i < |cmds| {
      assert cmds[i..][0] == cmds[i];
    } else {
      assert cmds[i..] == [];
    }
    assert p.responses + [] == p.responses;
  }

  /** The binding SET k v leaves, and that it answers OK. */
  lemma SetBindsKey(store: Store, k: Key, v: Value)
    ensures var s := Step(store, Set(k, v));
      s.Some? && k in s.value.0 && s.value.0[k] == v && s.value.1 == Simple("OK")
  {
  }

  /** SET k v touches no key besides k: each keeps its binding or its absence. */
  lemma SetChangesOnlyItsKey(store: Store, k: Key, v: Value, other: Key)
    requires other != k
    ensures var next := Step(store, Set(k, v)).value.0;
      (other in next <==> other in store) && (other in store ==> next[other] == store[other])
  {
  }

  /** GET k answers Bulk(v) exactly when k is bound to v, Null exactly when k is unbound, and keeps the store. */
  lemma GetReplyExact(store: Store, k: Key, v: Value)
    ensures var s := Step(store, Get(k));
      && s.Some? && s.value.0 == store
      && (s.value.1 == Bulk(v) <==> k in store && store[k] == v)
      && (s.value.1 == Null <==> k !in store)
  {
  }

  /** A GET right after SET k v on the same key answers Bulk(v). */
  lemma SetThenGet(store: Store, k: Key, v: Value)
    ensures Run(store, [Set(k, v), Get(k)])
         == Session(store[k := v], [Simple("OK"), Bulk(v)], false)
  {
    var cmds := [Set(k, v), Get(k)];
    assert cmds[1..] == [Get(k)];
    var s1 := store[k := v];
    assert Run(s1, [Get(k)]) == Session(s1, [Bulk(v)], false) by {
      assert [Get(k)][1..] == [];
      assert Step(s1, Get(k)) == Some((s1, Bulk(v)));
    }
  }

  function Repeat<T>(x: T, n: nat): (r: seq<T>)
    ensures |r| == n && forall i :: 0 <= i < n ==> r[i] == x
  {
    if n == 0 then [] else [x] + Repeat(x, n - 1)
  }

  /** SET k v issued n >= 1 times leaves the same store as issuing it once, answering OK each time. */
  lemma {:induction false} RepeatedSetIdempotent(store: Store, k: Key, v: Value, n: nat)
    requires n >= 1
    ensures Run(store, Repeat(Set(k, v), n)) == Session(store[k := v], Repeat(OK, n), false)
    decreases n
  {
    var cmds := Repeat(Set(k, v), n);
    assert cmds[0] == Set(k, v) && cmds[1..] == Repeat(Set(k, v), n - 1);
    if n == 1 {
      assert cmds[1..] == [];
      assert Repeat(OK, 1) == [OK];
    } else {
      RepeatedSetIdempotent(store[k := v], k, v, n - 1);
      assert store[k := v][k := v] == store[k := v];
      assert Repeat(OK, n) == [OK] + Repeat(OK, n - 1);
    }
  }

  /** The `Db` of one server: the map every connection reads and writes. */
  class Db {
    var store: Store

    constructor ()
      ensures store == map[]
    {
      store := map[];
    }

    /** The SET arm (lines 37-41): insert, overwriting, and answer OK. */
    method HandleSet(key: Key, value: Value) returns (reply: Frame)
      modifies this
      ensures store == old(store)[key := value]
      ensures reply == Simple("OK")
    {
      store := store[key := value];
      reply := OK;
    }

    /** The GET arm (lines 42-49): look the key up without changing the map. */
    method HandleGet(key: Key) returns (reply: Frame)
      ensures reply.Bulk? <==> key in store
      ensures reply.Bulk? ==> reply.data == store[key]
      ensures reply.Null? <==> key !in store
    {
      if key in store {
        reply := Bulk(store[key]);
      } else {
        reply := Null;
      }
    }

    /**
     * The `while let` loop of `process`: handle the commands in order,
     * collecting the responses; stop, panicked, at the first command that is
     * neither GET nor SET.
     */
    method Process(commands: seq<Command>) returns (responses: seq<Frame>, panicked: bool)
      modifies this
      ensures Run(old(store), commands) == Session(store, responses, panicked)
    {
      responses, panicked := [], false;
      var i := 0;
      while i < |commands|
        invariant 0 <= i <= |commands|
        invariant Run(old(store), commands[..i]) == Session(store, responses, false)
      {
        RunExtend(old(store), commands, i);
        var reply;
        match commands[i] {
          case Set(k, v) =>
            reply := HandleSet(k, v);
          case Get(k) =>
            reply := HandleGet(k);
          case Other(_) =>
            panicked := true;
            break;
        }
        responses := responses + [reply];
        i := i + 1;
      }
      RunFinish(old(store), commands, i);
    }
  }

  const I32_MIN: int := -0x8000_0000
  const I32_MAX: int := 0x7fff_ffff

  type i32 = x: int | I32_MIN <= x <= I32_MAX

  /** `CanIncrement`: the `i32` counter behind a `Mutex`. */
  class CanIncrement {
    var counter: i32

    constructor (initial: i32)
      ensures counter == initial
    {
      counter := initial;
    }

    /** `*lock += 1`: one more, without overflowing an i32. */
    method Increment()
      requires counter < I32_MAX
      modifies this
      ensures counter == old(counter) + 1
    {
      counter := counter + 1;
    }
  }
}
