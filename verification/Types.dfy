/**
 The values that the other modules share: log entries, server roles and the
 messages that servers exchange.
 */
module Types {

  type byte = x: int | 0 <= x < 256

  datatype Option<+T> = None | Some(value: T) {
    predicate IsFailure() { None? }

    function PropagateFailure<U>(): Option<U>
      requires None?
    {
      None
    }

    function Extract(): T
      requires Some?
    {
      value
    }
  }

  /** A server id; `NONE` is the "voted for nobody" and "no leader known" marker. */
  type Id = int
  const NONE: Id := -1

  /** The value types a log entry can carry. */
  const APP_LOG: byte := 1
  const CONF: byte := 2

  datatype Entry = Entry(term: nat, kind: byte, data: seq<byte>)

  datatype Role = Follower | Candidate | Leader

  datatype Msg =
    | VoteReq(src: Id, dst: Id, term: nat, lastLogTerm: nat, lastLogIdx: nat, commitIdx: nat)
    | VoteResp(src: Id, dst: Id, term: nat, nextIdx: nat, accepted: bool)
    | AppendReq(src: Id, dst: Id, term: nat, lastLogTerm: nat, lastLogIdx: nat, commitIdx: nat,
                entries: seq<Entry>)
    | AppendResp(src: Id, dst: Id, term: nat, nextIdx: nat, accepted: bool)

  function Min(a: int, b: int): int { if a < b then a else b }

  function Max(a: int, b: int): int { if a < b then b else a }

  /** The term of the last entry; the store's dummy entry has term 0. */
  function LastTerm(log: seq<Entry>): nat {
    if log == [] then 0 else log[|log| - 1].term
  }

  /** The term at a one-based index, 0 at index 0. */
  function TermAt(log: seq<Entry>, index: nat): nat
    requires index <= |log|
  {
    if index == 0 then 0 else log[index - 1].term
  }

  /** The voting rule: is a log that ends with (lastTerm, lastIdx) at least as current as `log`? */
  predicate UpToDate(lastTerm: nat, lastIdx: nat, log: seq<Entry>) {
    lastTerm > LastTerm(log) || (lastTerm == LastTerm(log) && |log| <= lastIdx)
  }

  /** A strict majority of the cluster `ids`. */
  predicate Majority(q: set<Id>, ids: set<Id>) {
    q <= ids && 2 * |q| > |ids|
  }

  /**
   What accepting the entries `es` after index `p` makes of a log: entries whose
   terms agree stay, and the first disagreement replaces the rest of the log.
   */
  function Merge(log: seq<Entry>, p: nat, es: seq<Entry>): seq<Entry>
    requires p <= |log|
    decreases |es|
  {
    if es == [] then log
    else if p < |log| && log[p].term == es[0].term then Merge(log, p + 1, es[1..])
    else log[..p] + es
  }

  lemma Regroup<T>(a: seq<T>, b: seq<T>, c: seq<T>)
    ensures (a + b) + c == a + (b + c)
  {
  }
}
