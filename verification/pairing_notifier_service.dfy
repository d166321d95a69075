/** The notifier over its state file: the tick's loops and the chat commands. */
module PairingNotifierService {
  import opened Text
  import opened PairingNotifier

  class Notifier {
    var file: NotifyState

    constructor (file: NotifyState)
      ensures this.file == file
    {
      this.file := file;
    }

    // readNotifyState with its normalisation.
    method ReadState() returns (state: NotifyState)
      ensures state == Normalize(file)
    {
      hide Trim;
      var raw := file.subscribers;
      var subscribers: seq<Subscriber> := [];
      var i := |raw|;
      while i > 0
        invariant 0 <= i <= |raw| && subscribers == NormalSubscribers(raw[i..])
      {
        i := i - 1;
        assert raw[i..][1..] == raw[i + 1..];
        if Trim(raw[i].address.to) != "" {
          subscribers := [NormalSubscriber(raw[i])] + subscribers;
        }
      }
      assert raw[0..] == raw;
      var marks: map<string, int> := map[];
      var todo := file.notified.Keys;
      while todo != {}
        invariant todo <= file.notified.Keys
        invariant marks == map id | id in file.notified && id !in todo && Trim(id) != "" && file.notified[id] > 0 ::
                    file.notified[id]
        decreases todo
      {
        var id :| id in todo;
        if Trim(id) != "" && file.notified[id] > 0 {
          marks := marks[id := file.notified[id]];
        }
        todo := todo - {id};
      }
      state := NotifyState(subscribers, marks);
    }

    method FindSubscriber(xs: seq<Subscriber>, key: string) returns (i: nat)
      ensures i == Find(xs, key)
    {
      i := 0;
      while i < |xs| && Key(xs[i].address) != key
        invariant i <= |xs| && Find(xs, key) == i + Find(xs[i..], key)
      {
        assert xs[i..][1..] == xs[i + 1..];
        i := i + 1;
      }
    }

    // `/pair notify on` and the arming of a one-shot.
    method SubscribeChat(address: Address, once: bool, now: int)
      modifies this
      ensures file == Subscribe(old(file), Subscriber(address, once, now))
    {
      hide Normalize;
      hide Key;
      var next := Subscriber(address, once, now);
      var state := ReadState();
      var xs := state.subscribers;
      var i := FindSubscriber(xs, Key(address));
      if i == |xs| {
        file := state.(subscribers := xs + [next]);
      } else if xs[i].once != once {
        assert xs[i := next][i] != xs[i];
        file := state.(subscribers := xs[i := next]);
      }
    }

    // `/pair notify off`.
    method UnsubscribeChat(address: Address)
      modifies this
      ensures file == Unsubscribe(old(file), address)
    {
      hide Normalize;
      hide Key;
      var state := ReadState();
      var xs := state.subscribers;
      var i := FindSubscriber(xs, Key(address));
      if i < |xs| {
        file := state.(subscribers := xs[..i] + xs[i + 1..]);
      }
    }

    // Send one request to every subscriber that should hear of it.
    method SendRequest(xs: seq<Subscriber>, tick: Tick, i: nat) returns (delivered: bool, fired: set<string>)
      requires i < |tick.pending|
      ensures delivered == Reached(xs, tick, i) && fired == Fired(xs, tick, i, |xs|)
    {
      delivered, fired := false, {};
      for j := 0 to |xs|
        invariant delivered == exists k | 0 <= k < j :: Reaches(xs, tick, i, k)
        invariant fired == Fired(xs, tick, i, j)
      {
        FiredOneMore(xs, tick, i, j);
        if ShouldNotify(xs[j], tick.pending[i]) {
          if tick.sends(i, j) {
            assert Reaches(xs, tick, i, j);
            delivered := true;
            if xs[j].once {
              fired := fired + {Key(xs[j].address)};
            }
          }
        }
      }
    }

    method PruneMarks(notified: map<string, int>, tick: Tick) returns (marks: map<string, int>)
      ensures marks == Pruned(notified, tick)
    {
      marks := map[];
      var todo := notified.Keys;
      while todo != {}
        invariant todo <= notified.Keys
        invariant marks == map id | id in notified && id !in todo && IsPending(tick.pending, id) &&
                    tick.now - notified[id] <= MAX_SEEN_AGE :: notified[id]
        decreases todo
      {
        var id :| id in todo;
        if IsPending(tick.pending, id) && tick.now - notified[id] <= MAX_SEEN_AGE {
          marks := marks[id := notified[id]];
        }
        todo := todo - {id};
      }
    }

    // The loop over the pending requests.
    method SendPending(xs: seq<Subscriber>, tick: Tick, pruned: map<string, int>)
      returns (marks: map<string, int>, fired: set<string>)
      ensures Progress(marks, fired) == VisitAll(xs, tick, pruned)
    {
      marks, fired := pruned, {};
      for i := 0 to |tick.pending|
        invariant Progress(marks, fired) == VisitFirst(xs, tick, i, pruned)
      {
        var id := tick.pending[i].id;
        if id !in marks || marks[id] == 0 {
          var delivered, newlyFired := SendRequest(xs, tick, i);
          fired := fired + newlyFired;
          if delivered {
            marks := marks[id := tick.now];
          }
        }
      }
    }

    // notifyPendingPairingRequests.
    method NotifyPending(tick: Tick) returns (threw: bool)
      modifies this
      ensures file == RunTick(old(file), tick) && threw == TickThrows(old(file), tick)
    {
      hide Trim;
      var state := ReadState();
      var xs := state.subscribers;
      var kept := xs;
      var marks := PruneMarks(state.notified, tick);
      if xs != [] {
        var fired;
        marks, fired := SendPending(xs, tick, marks);
        kept := WithoutFired(xs, fired);
      }
      threw := false;
      if NotifyState(kept, marks) != state {
        if tick.writes {
          file := NotifyState(kept, marks);
        } else {
          threw := true;
        }
      }
    }

    method WithoutFired(xs: seq<Subscriber>, fired: set<string>) returns (kept: seq<Subscriber>)
      ensures kept == Unfired(xs, fired)
    {
      hide Key;
      kept := [];
      var i := 0;
      while i < |xs|
        invariant 0 <= i <= |xs| && kept + Unfired(xs[i..], fired) == Unfired(xs, fired)
      {
        assert xs[i..][1..] == xs[i + 1..];
        if Key(xs[i].address) !in fired {
          kept := kept + [xs[i]];
        }
        i := i + 1;
      }
    }
  }

  lemma {:induction false} FiredOneMore(xs: seq<Subscriber>, tick: Tick, i: nat, j: nat)
    requires i < |tick.pending| && j < |xs|
    ensures Fired(xs, tick, i, j + 1) ==
            Fired(xs, tick, i, j) + if Reaches(xs, tick, i, j) && xs[j].once then {Key(xs[j].address)} else {}
  {
  }
}
