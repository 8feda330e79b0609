/**
 * Logging and log listeners (utils/debug.cpp). A listener is a callback
 * registered under an integer id; here a callback is an opaque token and
 * calling it is recorded as a delivery.
 */
module DebugLog {
  /** A registered listener: its id and its callback. */
  datatype Entry = Entry(id: int, listener: nat)

  /** std::map keeps its entries ordered by key, each key once. */
  predicate Sorted(es: seq<Entry>)
  {
    forall i, j :: 0 <= i < j < |es| ==> es[i].id < es[j].id
  }

  /** The id-to-callback map the entries represent. */
  function AsMap(es: seq<Entry>): (r: map<int, nat>)
  {
    if |es| == 0 then map[] else AsMap(es[1..])[es[0].id := es[0].listener]
  }

  /** Every id of the map is the id of an entry. */
  lemma {:induction false} AsMapKeys(es: seq<Entry>, id: int)
    requires id in AsMap(es)
    ensures exists k :: 0 <= k < |es| && es[k].id == id
  {
    if id != es[0].id {
      AsMapKeys(es[1..], id);
      var k :| 0 <= k < |es[1..]| && es[1..][k].id == id;
      assert es[k + 1].id == id;
    }
  }

  /** An id below the first one of sorted entries is not in the map. */
  lemma {:induction false} BelowFirstAbsent(es: seq<Entry>, id: int)
    requires Sorted(es) && |es| > 0 && id < es[0].id
    ensures id !in AsMap(es)
  {
    if |es| > 1 {
      BelowFirstAbsent(es[1..], id);
    }
  }

  /** In sorted entries, each id maps to the callback stored beside it. */
  lemma {:induction false} AsMapAt(es: seq<Entry>, k: nat)
    requires Sorted(es) && k < |es|
    ensures es[k].id in AsMap(es) && AsMap(es)[es[k].id] == es[k].listener
  {
    if k > 0 {
      AsMapAt(es[1..], k - 1);
    }
  }

  lemma UpdatesCommute(m: map<int, nat>, a: int, x: nat, b: int, y: nat)
    requires a != b
    ensures m[a := x][b := y] == m[b := y][a := x]
  {
  }

  lemma UpdateRemoveCommute(m: map<int, nat>, a: int, x: nat, b: int)
    requires a != b
    ensures (m - {b})[a := x] == m[a := x] - {b}
  {
  }

  /** Prepending an entry below the first keeps entries sorted. */
  lemma ConsSorted(e: Entry, es: seq<Entry>)
    requires Sorted(es) && (|es| > 0 ==> e.id < es[0].id)
    ensures Sorted([e] + es)
  {
    var r := [e] + es;
    forall i, j | 0 <= i < j < |r|
      ensures r[i].id < r[j].id
    {
      if i == 0 && j > 1 {
        assert es[0].id < es[j - 1].id;
      }
    }
  }

  /** The entries after `map[id] = listener`: a new id is inserted in order, a known one replaced. */
  function Put(es: seq<Entry>, id: int, listener: nat): (r: seq<Entry>)
    requires Sorted(es)
    ensures Sorted(r) && |r| > 0
    ensures r[0].id == id || (|es| > 0 && r[0].id == es[0].id)
  {
    if |es| == 0 then [Entry(id, listener)]
    else if id < es[0].id then
      ConsSorted(Entry(id, listener), es);
      [Entry(id, listener)] + es
    else if id == es[0].id then
      ConsSorted(Entry(id, listener), es[1..]);
      [Entry(id, listener)] + es[1..]
    else
      var rest := Put(es[1..], id, listener);
      ConsSorted(es[0], rest);
      [es[0]] + rest
  }

  /** Put stores the callback under the id and leaves every other id alone. */
  lemma {:induction false} PutMap(es: seq<Entry>, id: int, listener: nat)
    requires Sorted(es)
    ensures AsMap(Put(es, id, listener)) == AsMap(es)[id := listener]
  {
    if |es| == 0 {
    } else if id < es[0].id {
      assert ([Entry(id, listener)] + es)[1..] == es;
      BelowFirstAbsent(es, id);
    } else if id == es[0].id {
      assert ([Entry(id, listener)] + es[1..])[1..] == es[1..];
    } else {
      var rest := Put(es[1..], id, listener);
      assert ([es[0]] + rest)[1..] == rest;
      PutMap(es[1..], id, listener);
      UpdatesCommute(AsMap(es[1..]), id, listener, es[0].id, es[0].listener);
    }
  }

  /** The entries after `map.erase(id)`. */
  function Erase(es: seq<Entry>, id: int): (r: seq<Entry>)
    requires Sorted(es)
    ensures Sorted(r)
    ensures |r| > 0 ==> |es| > 0 && (r[0] == es[0] || (|es| > 1 && r[0] == es[1]))
  {
    if |es| == 0 then []
    else if es[0].id == id then es[1..]
    else
      var rest := Erase(es[1..], id);
      ConsSorted(es[0], rest);
      [es[0]] + rest
  }

  /** Erase drops the id and leaves every other id alone. */
  lemma {:induction false} EraseMap(es: seq<Entry>, id: int)
    requires Sorted(es)
    ensures AsMap(Erase(es, id)) == AsMap(es) - {id}
  {
    if |es| == 0 {
    } else if es[0].id == id {
      if |es| > 1 {
        BelowFirstAbsent(es[1..], id);
      }
    } else {
      var rest := Erase(es[1..], id);
      assert ([es[0]] + rest)[1..] == rest;
      EraseMap(es[1..], id);
      UpdateRemoveCommute(AsMap(es[1..]), es[0].id, es[0].listener, id);
    }
  }

  /** One call of a listener: its id, the callback and the message. */
  datatype Delivery = Delivery(id: int, listener: nat, message: string)

  /** The deliveries NotifyListeners makes, in order. */
  function Deliveries(es: seq<Entry>, message: string): (r: seq<Delivery>)
    ensures |r| == |es|
  {
    seq(|es|, k requires 0 <= k < |es| => Delivery(es[k].id, es[k].listener, message))
  }

  /**
   * Every registered listener gets the message exactly once, with the
   * callback stored under its id, and in ascending id order.
   */
  lemma DeliveriesOncePerListener(es: seq<Entry>, message: string)
    requires Sorted(es)
    ensures var r := Deliveries(es, message); var m := AsMap(es);
      (forall k :: 0 <= k < |r| ==> r[k].id in m && r[k].listener == m[r[k].id] && r[k].message == message)
      && (forall id :: id in m ==> exists k :: 0 <= k < |r| && r[k].id == id)
      && (forall k, l :: 0 <= k < l < |r| ==> r[k].id < r[l].id)
  {
    var r := Deliveries(es, message);
    forall k | 0 <= k < |es|
      ensures es[k].id in AsMap(es) && AsMap(es)[es[k].id] == es[k].listener
    {
      AsMapAt(es, k);
    }
    forall id | id in AsMap(es)
      ensures exists k :: 0 <= k < |r| && r[k].id == id
    {
      AsMapKeys(es, id);
      var k :| 0 <= k < |es| && es[k].id == id;
      assert r[k].id == id;
    }
  }

  datatype Stream = Stdout | Stderr

  /** A line written to a console stream. */
  datatype LogLine = LogLine(stream: Stream, text: string)

  datatype Level = Info | Warning | Error

  /** The console line of a message at a level (lines 30, 41 and 52). */
  function Line(level: Level, message: string): (r: LogLine)
    ensures r.stream == (if level == Error then Stderr else Stdout)
    ensures |message| <= |r.text| && r.text[|r.text| - |message|..] == message
  {
    match level
    case Info => LogLine(Stdout, "[INFO]" + message)
    case Warning => LogLine(Stdout, "[WARNING]" + message)
    case Error => LogLine(Stderr, "[ERROR] " + message)
  }

  class Debug {
    /** The listener map of GetListeners (lines 10-14), as its ordered entries. */
    var listeners: seq<Entry>
    /** The console lines written so far. */
    var output: seq<LogLine>
    /** The listener calls made so far. */
    var delivered: seq<Delivery>

    ghost predicate Valid()
      reads this
    {
      Sorted(listeners)
    }

    constructor()
      ensures Valid() && listeners == [] && output == [] && delivered == []
    {
      listeners := [];
      output := [];
      delivered := [];
    }

    /** AddListener (lines 58-61): registers the callback, replacing any under the same id. */
    method AddListener(id: int, listener: nat)
      requires Valid()
      modifies this
      ensures Valid()
      ensures AsMap(listeners) == old(AsMap(listeners))[id := listener]
      ensures output == old(output) && delivered == old(delivered)
    {
      PutMap(listeners, id, listener);
      listeners := Put(listeners, id, listener);
    }

    /** RemoveListener (lines 63-70): drops the id; an unknown id changes nothing. */
    method RemoveListener(id: int)
      requires Valid()
      modifies this
      ensures Valid()
      ensures AsMap(listeners) == old(AsMap(listeners)) - {id}
      ensures output == old(output) && delivered == old(delivered)
    {
      EraseMap(listeners, id);
      listeners := Erase(listeners, id);
    }

    /** NotifyListeners (lines 16-23): calls every listener in map order. */
    method NotifyListeners(message: string)
      modifies this
      ensures delivered == old(delivered) + Deliveries(listeners, message)
      ensures listeners == old(listeners) && output == old(output)
    {
      ghost var all := Deliveries(listeners, message);
      for i := 0 to |listeners|
        invariant listeners == old(listeners) && output == old(output)
        invariant delivered == old(delivered) + all[..i]
      {
        assert all[..i + 1] == all[..i] + [Delivery(listeners[i].id, listeners[i].listener, message)];
        delivered := delivered + [Delivery(listeners[i].id, listeners[i].listener, message)];
      }
      assert all[..|listeners|] == all;
    }

    /**
     * LogInfo, LogWarning and LogError (lines 25-56): the message goes to
     * the console at its level and then to every listener.
     */
    method Log(level: Level, message: string)
      modifies this
      ensures output == old(output) + [Line(level, message)]
      ensures delivered == old(delivered) + Deliveries(listeners, message)
      ensures listeners == old(listeners)
    {
      output := output + [Line(level, message)];
      NotifyListeners(message);
    }
  }
}
