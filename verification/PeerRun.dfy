/**
  Two `PeerLoop.Peer` objects connected to each other: control messages leave
  the outbox of one and are heard by the other, each has a file stream to the
  other. Any run of `Duplex` is carried out by the methods of the two objects,
  so what is shown of runs holds of the objects.
*/
module PeerRun {
  import opened Common
  import opened ControlMessages
  import C = Coordination
  import T = Tasks
  import X = Transfer
  import D = Duplex
  import P = PeerLoop

  /** The two objects and the streams between them as a state of `Duplex`. */
  function WorldOf(a: P.Peer, b: P.Peer, fab: P.FileStream, fba: P.FileStream, hab: X.History, hba: X.History): D.World
    reads a, b, fab, fba
  {
    D.World(a.State(), b.State(), a.outbox, b.outbox, fab.bytes, fba.bytes, hab, hba)
  }

  ghost predicate Wired(env: X.Env, a: P.Peer, b: P.Peer, fab: P.FileStream, fba: P.FileStream) {
    a != b && fab != fba && a.hash == env.hash && b.hash == env.hash && fab.window == env.window &&
    fba.window == env.window
  }

  /** The history variables after an action of the first peer. */
  function HistoriesAfter(env: X.Env, w: D.World, x: D.PeerAction): (X.History, X.History)
    requires D.Can(env, w, x)
  {
    (D.Act(env, w, x).hab, D.Act(env, w, x).hba)
  }

  method RunSendTask(env: X.Env, a: P.Peer, fab: P.FileStream, step: T.SendStep)
    requires a.hash == env.hash && fab.window == env.window
    requires T.CanSend(a.SenderState(), fab.bytes, env.window, step)
    modifies a, fab
    ensures var m := T.Send(env.hash, old(a.SenderState()), old(fab.bytes), env.window, step);
      a.State() == old(a.State()).(s := m.state) && fab.bytes == m.stream && a.outbox == old(a.outbox) + m.sent
  {
    hide T.Send, T.CanSend;
    match step {
      case StartSend => a.OpenSource(fab);
      case ReadSource(n) => a.ReadSource(fab, n);
      case TakeChunk => a.TakeChunk(fab);
      case WriteStream(n) => a.WriteStream(fab, n);
      case FinishSend => a.FinishSend(fab);
    }
  }

  method RunReceiveTask(env: X.Env, a: P.Peer, fba: P.FileStream, step: T.ReceiveStep)
    requires a.hash == env.hash && T.CanReceive(a.ReceiverState(), fba.bytes, step)
    modifies a, fba
    ensures var m := T.Receive(env.hash, old(a.ReceiverState()), old(fba.bytes), step);
      a.State() == old(a.State()).(r := m.state) && fba.bytes == m.stream && a.outbox == old(a.outbox) + m.sent
  {
    hide T.Receive, T.CanReceive;
    match step {
      case StartReceive => a.OpenTarget(fba);
      case ReadStream(n) => a.ReadStream(fba, n);
      case WriteDisk(n) => a.WriteDisk(fba, n);
      case CloseFile => a.CloseFile(fba);
      case Answer => a.Answer(fba);
      case Fail => a.GiveUp(fba);
    }
  }

  /** One action of the first peer. */
  method Step(env: X.Env, a: P.Peer, b: P.Peer, fab: P.FileStream, fba: P.FileStream, x: D.PeerAction,
              ghost hab: X.History, ghost hba: X.History)
    requires Wired(env, a, b, fab, fba) && D.Can(env, WorldOf(a, b, fab, fba, hab, hba), x)
    modifies a, b`outbox, fab, fba
    ensures var w := old(WorldOf(a, b, fab, fba, hab, hba));
      var (hab', hba') := HistoriesAfter(env, w, x);
      WorldOf(a, b, fab, fba, hab', hba') == D.Act(env, w, x)
  {
    hide C.OnCommand, C.OnMessage, T.Send, T.Receive, T.CanSend, T.CanReceive, D.Noted;
    match x {
      case Issue(command) => a.OnCommand(command);
      case Hear =>
        var message := b.outbox[0];
        b.outbox := b.outbox[1..];
        a.OnMessage(message);
      case RunSender(step) => RunSendTask(env, a, fab, step);
      case RunReceiver(step) => RunReceiveTask(env, a, fba, step);
    }
  }

  /** One step of either peer. */
  method EitherStep(env: X.Env, a: P.Peer, b: P.Peer, fab: P.FileStream, fba: P.FileStream,
                    step: (D.Side, D.PeerAction), ghost hab: X.History, ghost hba: X.History)
    returns (ghost hab': X.History, ghost hba': X.History)
    requires Wired(env, a, b, fab, fba) && D.Possible(env, WorldOf(a, b, fab, fba, hab, hba), step)
    modifies a, b, fab, fba
    ensures WorldOf(a, b, fab, fba, hab', hba') == D.Next(env, old(WorldOf(a, b, fab, fba, hab, hba)), step)
  {
    hide D.Act, D.Can;
    ghost var w := WorldOf(a, b, fab, fba, hab, hba);
    if step.0.A? {
      Step(env, a, b, fab, fba, step.1, hab, hba);
      hab', hba' := HistoriesAfter(env, w, step.1).0, HistoriesAfter(env, w, step.1).1;
    } else {
      assert D.Swap(w) == WorldOf(b, a, fba, fab, hba, hab);
      Step(env, b, a, fba, fab, step.1, hba, hab);
      hba', hab' := HistoriesAfter(env, D.Swap(w), step.1).0, HistoriesAfter(env, D.Swap(w), step.1).1;
    }
  }

  /** A whole run, in any interleaving of the two peers. */
  method Execute(env: X.Env, a: P.Peer, b: P.Peer, fab: P.FileStream, fba: P.FileStream,
                 steps: seq<(D.Side, D.PeerAction)>, ghost hab: X.History, ghost hba: X.History)
    returns (ghost hab': X.History, ghost hba': X.History)
    requires Wired(env, a, b, fab, fba) && D.Unfolds(env, WorldOf(a, b, fab, fba, hab, hba), steps)
    modifies a, b, fab, fba
    ensures WorldOf(a, b, fab, fba, hab', hba') == D.Outcome(env, old(WorldOf(a, b, fab, fba, hab, hba)), steps)
  {
    hab', hba' := hab, hba;
    var k := 0;
    while k < |steps|
      invariant k <= |steps|
      invariant D.Unfolds(env, WorldOf(a, b, fab, fba, hab', hba'), steps[k..])
      invariant D.Outcome(env, WorldOf(a, b, fab, fba, hab', hba'), steps[k..]) ==
                D.Outcome(env, old(WorldOf(a, b, fab, fba, hab, hba)), steps)
    {
      hide D.Next, D.Possible, WorldOf;
      assert steps[k..][0] == steps[k] && steps[k..][1..] == steps[k + 1..];
      hab', hba' := EitherStep(env, a, b, fab, fba, steps[k], hab', hba');
      k := k + 1;
    }
    assert steps[k..] == [];
  }

  /** Two fresh peers: what their run leads to is the state that the theorems about `Duplex` speak of. */
  method RunConnected(hash: C.Hasher, window: nat, filesA: map<string, Bytes>, filesB: map<string, Bytes>,
                      steps: seq<(D.Side, D.PeerAction)>)
    returns (a: P.Peer, b: P.Peer, fab: P.FileStream, fba: P.FileStream, ghost hab: X.History, ghost hba: X.History)
    requires D.Unfolds(X.Env(hash, window), D.Connected(filesA, filesB), steps)
    ensures fresh(a) && fresh(b) && fresh(fab) && fresh(fba)
    ensures WorldOf(a, b, fab, fba, hab, hba) == D.Outcome(X.Env(hash, window), D.Connected(filesA, filesB), steps)
  {
    a := new P.Peer(hash, filesA);
    b := new P.Peer(hash, filesB);
    fab := new P.FileStream(window);
    fba := new P.FileStream(window);
    hab, hba := Execute(X.Env(hash, window), a, b, fab, fba, steps, X.NoHistory, X.NoHistory);
  }
}
