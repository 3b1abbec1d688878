/** What the orderer's deliver stream says about block 0 of a channel. */
module Deliver {
  import opened Wrappers
  import opened Fabric

  datatype Status = SUCCESS | NOT_FOUND | SERVICE_UNAVAILABLE | OTHER

  datatype Response = BlockMsg(block: Block) | StatusMsg(status: Status) | OtherMsg

  /** How the stream ends when no status ends it. */
  datatype Ending = Eof | Broken

  datatype DeliverError = NoChannel | BadStatus(status: Status) | Receive(ending: Ending)

  /** The number of responses before the first status, or before the end. */
  function BeforeStatus(stream: seq<Response>): (k: nat)
    ensures k <= |stream|
    ensures forall i :: 0 <= i < k ==> !stream[i].StatusMsg?
    ensures k < |stream| ==> stream[k].StatusMsg?
  {
    if stream == [] || stream[0].StatusMsg? then 0 else 1 + BeforeStatus(stream[1..])
  }

  function LastBlock(stream: seq<Response>): Option<Block> {
    if stream == [] then None
    else if stream[|stream|-1].BlockMsg? then Some(stream[|stream|-1].block)
    else LastBlock(stream[..|stream|-1])
  }

  lemma LastBlockIsThere(stream: seq<Response>)
    ensures LastBlock(stream).None? <==> forall i :: 0 <= i < |stream| ==> !stream[i].BlockMsg?
    ensures LastBlock(stream).Some? ==> BlockMsg(LastBlock(stream).value) in stream
  {
  }

  /** The position of the first status is the only one of its kind. */
  lemma BeforeStatusIs(stream: seq<Response>, k: nat)
    requires k <= |stream| && (k < |stream| ==> stream[k].StatusMsg?)
    requires forall i :: 0 <= i < k ==> !stream[i].StatusMsg?
    ensures BeforeStatus(stream) == k
  {
  }

  /** The receive loop of genesisBlock.  It returns a block exactly when a block
      precedes the first status or the end, and that is SUCCESS or EOF. */
  method GenesisBlock(stream: seq<Response>, ending: Ending, wait: bool) returns (r: Result<Block, DeliverError>)
    ensures
      var k := BeforeStatus(stream);
      r.Success? <==>
        LastBlock(stream[..k]).Some? && (if k < |stream| then stream[k].status == SUCCESS else ending == Eof)
    ensures r.Success? ==> Some(r.value) == LastBlock(stream[..BeforeStatus(stream)])
    ensures
      var k := BeforeStatus(stream);
      r == Failure(NoChannel) <==>
        k < |stream| && (stream[k].status == NOT_FOUND || (stream[k].status == SERVICE_UNAVAILABLE && !wait))
  {
    var block := None;
    var i := 0;
    while i < |stream|
      invariant 0 <= i <= |stream|
      invariant forall j :: 0 <= j < i ==> !stream[j].StatusMsg?
      invariant block == LastBlock(stream[..i])
    {
      assert stream[..i+1][..i] == stream[..i];
      match stream[i] {
        case BlockMsg(b) => block := Some(b);
        case OtherMsg =>
        case StatusMsg(status) =>
          BeforeStatusIs(stream, i);
          if status == SUCCESS && block.Some? {
            return Success(block.value);
          } else if status == NOT_FOUND || (status == SERVICE_UNAVAILABLE && !wait) {
            return Failure(NoChannel);
          } else {
            return Failure(BadStatus(status));
          }
      }
      i := i + 1;
    }
    BeforeStatusIs(stream, |stream|);
    if ending == Eof && block.Some? {
      return Success(block.value);
    }
    return Failure(Receive(ending));
  }
}
