/**
 * The devices behind the LionCloud bus, as the file layer sees them through
 * LCRequestFrame: control requests (power-on, probe, device init) answer
 * with a response frame, and block transfers read or write one 256-byte
 * block at a (device, sector, block) address or fail.
 */
module Bus {
  import opened Bits
  import Frame

  datatype BlockAddr = BlockAddr(device: u32, sector: u32, block: u32)

  class DeviceBus {
    /** Block contents the devices hold; a block never written reads as zeros. */
    var blocks: map<BlockAddr, Block>
    /** Devices whose block transfers come back with a failure status. */
    const failing: set<u32>
    /** The response frames the devices give to the control requests. */
    const powerOnResponse: bv64
    const probeResponse: bv64
    const initResponses: map<u32, bv64>

    constructor (powerOnResponse: bv64, probeResponse: bv64, initResponses: map<u32, bv64>, failing: set<u32>)
      ensures this.blocks == map[] && this.failing == failing
      ensures this.powerOnResponse == powerOnResponse && this.probeResponse == probeResponse
      ensures this.initResponses == initResponses
    {
      blocks := map[];
      this.failing := failing;
      this.powerOnResponse := powerOnResponse;
      this.probeResponse := probeResponse;
      this.initResponses := initResponses;
    }

    function Stored(a: BlockAddr): (b: Block)
      reads this
      ensures a in blocks ==> b == blocks[a]
      ensures a !in blocks ==> b == ZeroBlock()
    {
      if a in blocks then blocks[a] else ZeroBlock()
    }

    method PowerOn() returns (response: bv64)
      ensures response == powerOnResponse
    {
      response := powerOnResponse;
    }

    method Probe() returns (response: bv64)
      ensures response == probeResponse
    {
      response := probeResponse;
    }

    /** A device that does not answer the init request reports a failure status. */
    method DevInit(device: u32) returns (response: bv64)
      ensures device in initResponses ==> response == initResponses[device]
      ensures device !in initResponses ==> !Frame.Succeeded(response)
    {
      if device in initResponses {
        response := initResponses[device];
      } else {
        response := Frame.Response(1, 0, 0);
        Frame.ResponseDecodes(1, 0, 0);
      }
    }

    /** A read transfer: fails exactly on a failing device, else returns the stored block. */
    method ReadBlock(a: BlockAddr) returns (ok: bool, data: Block)
      ensures ok <==> a.device !in failing
      ensures ok ==> data == Stored(a)
    {
      ok := a.device !in failing;
      data := Stored(a);
    }

    /** A write transfer: on success the block at `a` holds `data` and nothing else changes. */
    method WriteBlock(a: BlockAddr, data: Block) returns (ok: bool)
      modifies this
      ensures ok <==> a.device !in failing
      ensures blocks == if ok then old(blocks)[a := data] else old(blocks)
    {
      ok := a.device !in failing;
      if ok {
        blocks := blocks[a := data];
      }
    }
  }
}
