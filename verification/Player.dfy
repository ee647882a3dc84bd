/**
  The shared playback device, reduced to the calls the core makes on it.
  Audio decoding and the device's own asynchronous behaviour are outside the model:
  the device only records, in order, the load/play/stop calls it receives, and the
  state changes it reports come back as `PlayingState` inputs to the listeners.
*/
module Devices {

  /** A call made on the device. */
  datatype PlayerCall = LoadCall(fileName: string) | PlayCall | StopCall

  /** A state change reported by the device to its listeners; only ENDED and STOPED have an effect. */
  datatype PlayingState = Ended | Stoped | OtherState

  class Player {
    var calls: seq<PlayerCall>

    constructor ()
      ensures calls == []
    {
      calls := [];
    }

    method Load(fileName: string)
      modifies this
      ensures calls == old(calls) + [LoadCall(fileName)]
    {
      calls := calls + [LoadCall(fileName)];
    }

    method Play()
      modifies this
      ensures calls == old(calls) + [PlayCall]
    {
      calls := calls + [PlayCall];
    }

    method Stop()
      modifies this
      ensures calls == old(calls) + [StopCall]
    {
      calls := calls + [StopCall];
    }
  }
}
