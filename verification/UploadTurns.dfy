/** Scripts of turns: calm stretches, and tries that are lost before one comes through. */
module UploadTurns {
  import opened Wrappers
  import opened UploadServer
  import opened UploadWorld

  /** A turn in which nothing goes wrong; so is every turn after the end of a script. */
  const CALM := Turn(None, Delivered)

  /** No answer, a 429 or a 5xx: worth another try. */
  predicate Passing(status: nat) {
    status == 0 || status == 429 || status >= 500
  }

  /** The turn wastes a try: the request or its answer is lost, or something on the way is busy. */
  predicate Fleeting(turn: Turn) {
    turn.drift.None? &&
    match turn.fate
    case Lost => true
    case Unanswered => true
    case Refused(status) => Reply(status, Nothing).IsOk() || Passing(status)
    case _ => false
  }

  function Drop(script: seq<Turn>, k: nat): seq<Turn> {
    if k <= |script| then script[k..] else []
  }

  predicate CalmFor(script: seq<Turn>, k: nat) {
    forall i :: 0 <= i < k && i < |script| ==> script[i] == CALM
  }

  /** How many tries are wasted before another kind of turn. */
  function Wasted(script: seq<Turn>): nat {
    if script != [] && Fleeting(script[0]) then 1 + Wasted(script[1..]) else 0
  }

  /** What is left of the script when a part is through. */
  function AfterPart(script: seq<Turn>): seq<Turn> {
    Drop(script, Wasted(script) + 1)
  }

  function AfterParts(script: seq<Turn>, n: nat): seq<Turn>
    decreases n
  {
    if n == 0 then script else AfterParts(AfterPart(script), n - 1)
  }

  /** The next part comes through after at most `retries` wasted tries. */
  predicate Comes(script: seq<Turn>, retries: nat) {
    Wasted(script) <= retries && NextTurn(Drop(script, Wasted(script))) == CALM
  }

  /** Each of the next `n` parts comes through after at most `retries` wasted tries. */
  predicate Gentle(script: seq<Turn>, n: nat, retries: nat)
    decreases n
  {
    n == 0 || (Comes(script, retries) && Gentle(AfterPart(script), n - 1, retries))
  }

  lemma DropDrop(script: seq<Turn>, i: nat, k: nat)
    ensures Drop(Drop(script, i), k) == Drop(script, i + k)
  {
  }

  lemma RestIsDrop(script: seq<Turn>, i: nat)
    ensures Rest(Drop(script, i)) == Drop(script, i + 1) && Drop(script, 0) == script && Rest(script) == Drop(script, 1)
  {
  }

  /** The wasted tries come first. */
  lemma {:induction false} WastedFirst(script: seq<Turn>, i: nat)
    ensures i < Wasted(script) ==> Fleeting(NextTurn(Drop(script, i)))
    ensures i == Wasted(script) ==> !Fleeting(NextTurn(Drop(script, i)))
    ensures Wasted(script) <= |script|
  {
    if script != [] && Fleeting(script[0]) {
      if i > 0 {
        WastedFirst(script[1..], i - 1);
        assert Drop(script, i) == Drop(script[1..], i - 1);
      } else {
        WastedFirst(script[1..], 0);
      }
    }
  }

  /** A calm script is gentle, and stays as it is when it has ended. */
  lemma {:induction false} CalmIsGentle(script: seq<Turn>, n: nat, retries: nat)
    requires CalmFor(script, n)
    ensures Gentle(script, n, retries) && AfterParts(script, n) == Drop(script, n)
  {
    if n > 0 {
      assert AfterPart(script) == Drop(script, 1);
      CalmIsGentle(AfterPart(script), n - 1, retries);
      DropDrop(script, 1, n - 1);
    }
  }
}
