/** The server-to-state registry of `AudioStreamModule`
    (Bot.Core/Modules/Audio/AudioStreamModule.cs:330-333, 512-537): one
    `AudioState` per server id, created on first use and pruned after loading. */
module AudioRegistry {
  import opened Wrappers
  import Audio

  class AudioStreamModule {
    var audioStates: map<nat, Audio.AudioState>

    /** Every state is filed under its own server id. */
    ghost predicate Valid()
      reads this
    {
      forall id :: id in audioStates ==> audioStates[id].hostServerId == id
    }

    constructor ()
      ensures Valid() && audioStates == map[]
    {
      audioStates := map[];
    }

    /** `GetAudio`: the state of the channel's server, created when missing; the
        only change to an existing state is its chat channel. */
    method GetAudio(chat: Audio.Channel) returns (state: Audio.AudioState)
      requires Valid()
      modifies this`audioStates, audioStates.Values`chatChannel
      ensures Valid()
      ensures chat.serverId in audioStates && audioStates[chat.serverId] == state
      ensures state.chatChannel == Some(chat)
      ensures forall id :: id in old(audioStates) && id != chat.serverId ==>
                id in audioStates && audioStates[id] == old(audioStates[id]) &&
                audioStates[id].chatChannel == old(audioStates[id].chatChannel)
      ensures chat.serverId in old(audioStates) ==> audioStates == old(audioStates) && state == old(audioStates[chat.serverId])
      ensures chat.serverId !in old(audioStates) ==>
                fresh(state) && audioStates == old(audioStates)[chat.serverId := state] &&
                state.playlist == [] && !state.isPlaying && state.hostBound
    {
      var id := chat.serverId;
      if id !in audioStates {
        var created := new Audio.AudioState(id);
        audioStates := audioStates[id := created];
      }
      state := audioStates[id];
      state.chatChannel := Some(chat);
    }

    /** `OnDataLoad`: finishes loading every state in some order and removes the
        states whose server no longer exists. `faulted` where `FinishLoading`
        throws on a state whose host is already bound, which ends the pass. */
    method OnDataLoad(serverExists: nat -> bool) returns (faulted: bool)
      requires Valid()
      modifies this`audioStates, audioStates.Values`hostBound
      ensures Valid()
      ensures faulted <==> exists id :: id in old(audioStates) && old(audioStates[id].hostBound)
      ensures forall id :: id in audioStates ==> id in old(audioStates) && audioStates[id] == old(audioStates[id])
      ensures !faulted ==> audioStates == map id | id in old(audioStates) && serverExists(id) :: old(audioStates[id])
      ensures !faulted ==> forall id :: id in audioStates ==> audioStates[id].hostBound
    {
      var todo := audioStates.Keys;
      while todo != {}
        invariant Valid()
        invariant todo <= old(audioStates).Keys
        invariant audioStates == map id | id in old(audioStates) && (id in todo || serverExists(id)) :: old(audioStates)[id]
        invariant forall id :: id in todo ==> audioStates[id].hostBound == old(audioStates[id].hostBound)
        invariant forall id :: id in old(audioStates) && id !in todo ==> !old(audioStates[id].hostBound)
        invariant forall id :: id in audioStates && id !in todo ==> audioStates[id].hostBound
        decreases todo
      {
        var id :| id in todo;
        var state := audioStates[id];
        var loaded := state.FinishLoading(serverExists);
        if loaded.None? {
          return true;
        }
        todo := todo - {id};
        if !loaded.value {
          audioStates := audioStates - {state.hostServerId};
        }
      }
      return false;
    }
  }
}
