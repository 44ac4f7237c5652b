/** The `anyhow::Error` values both services build: a root cause wrapped in
    layers of context, where a layer may be a `StatusCode` that the server's
    `main` finds again with `downcast_ref::<StatusCode>()`. */
module Anyhow {
  import opened Base
  import opened Http

  /** One layer of an error: a message, or a `StatusCode` given as context. */
  datatype Frame = Message(text: string) | Status(code: StatusCode)

  /** The layers of an error, outermost context first; the last is the root cause. */
  datatype Error = Error(chain: seq<Frame>)

  /** `anyhow!(text)`, `bail!(text)`, or a foreign error converted by `?`. */
  function Msg(text: string): (r: Error)
    ensures |r.chain| == 1 && r.chain[0].Message? && r.chain[0].text == text
    ensures forall i :: 0 <= i < |r.chain| ==> r.chain[i].Message?
  {
    Error([Message(text)])
  }

  /** `e.context(f)`: `f` becomes the outermost layer and `e` is kept beneath it. */
  function Context(e: Error, f: Frame): (r: Error)
    ensures |r.chain| == |e.chain| + 1
    ensures r.chain[0] == f && r.chain[1..] == e.chain
  {
    Error([f] + e.chain)
  }

  /** `downcast_ref::<StatusCode>()`: the outermost `StatusCode` layer, if any. */
  function DowncastStatus(chain: seq<Frame>): (r: Option<StatusCode>)
    ensures r.None? <==> forall i :: 0 <= i < |chain| ==> chain[i].Message?
    ensures r.Some? ==> exists i :: 0 <= i < |chain| && chain[i] == Status(r.value)
                          && forall j :: 0 <= j < i ==> chain[j].Message?
    ensures forall i ::
              0 <= i < |chain| && chain[i].Status? && (forall j :: 0 <= j < i ==> chain[j].Message?) ==>
              r == Some(chain[i].code)
  {
    if chain == [] then None
    else if chain[0].Status? then Some(chain[0].code)
    else
      var r := DowncastStatus(chain[1..]);
      assert forall i :: 1 <= i < |chain| ==> chain[i] == chain[1..][i - 1];
      if r.Some? then
        var i :| 0 <= i < |chain[1..]| && chain[1..][i] == Status(r.value)
                 && forall j :: 0 <= j < i ==> chain[1..][j].Message?;
        assert chain[i + 1] == Status(r.value);
        r
      else r
  }

  /** The status `main` answers an error with: its `StatusCode`, else 500. */
  function ErrorStatus(e: Error): (s: StatusCode)
    ensures s == INTERNAL_SERVER_ERROR || exists i :: 0 <= i < |e.chain| && e.chain[i] == Status(s)
    ensures (forall i :: 0 <= i < |e.chain| ==> e.chain[i].Message?) ==> s == INTERNAL_SERVER_ERROR
    ensures forall i ::
              0 <= i < |e.chain| && e.chain[i].Status? && (forall j :: 0 <= j < i ==> e.chain[j].Message?) ==>
              s == e.chain[i].code
  {
    DowncastStatus(e.chain).GetOr(INTERNAL_SERVER_ERROR)
  }

  /** An error that has no `StatusCode` anywhere in it. */
  predicate Unstatused(e: Error) {
    forall i :: 0 <= i < |e.chain| ==> e.chain[i].Message?
  }

  /** Adding a message layer never changes the status an error is answered with. */
  lemma MessageContextKeepsStatus(e: Error, text: string)
    ensures ErrorStatus(Context(e, Message(text))) == ErrorStatus(e)
    ensures Unstatused(e) ==> Unstatused(Context(e, Message(text)))
  {
    var c := Context(e, Message(text)).chain;
    assert c[1..] == e.chain;
  }

  /** A `StatusCode` layer decides the status, whatever lies beneath it. */
  lemma StatusContextDecides(e: Error, code: StatusCode)
    ensures ErrorStatus(Context(e, Status(code))) == code
  {
  }
}
