/** Event registrations (watch and remove of DeepSeerLib/src/Event/KqueueLoop.cpp) against the filter
    set the kernel keeps.  kevent processes a change list in order and gives up at the first change
    it cannot apply; the kernel may refuse any addition, and refuses to delete an absent filter. */
module EventLoop {

  type Fd = int

  datatype Filter = Read | Write

  /** The event mask of a registration. */
  datatype Interest = Interest(readable: bool, writable: bool)

  /** An addition the kernel was asked for, and its answer. */
  datatype Addition = Addition(fd: Fd, filter: Filter, accepted: bool)

  /** The additions from index `from` on are for wanted filters of fd; all were accepted or not. */
  predicate AskedFor(answers: seq<Addition>, from: nat, fd: Fd, events: Interest, all: bool) {
    && (forall i :: from <= i < |answers| ==>
          answers[i].fd == fd && (if answers[i].filter.Read? then events.readable else events.writable))
    && (all <==> forall i :: from <= i < |answers| ==> answers[i].accepted)
  }

  class KqueueLoop {
    var fdEntries: map<Fd, Interest>
    var kernel: set<(Fd, Filter)>      // what kqueue monitors, apart from the wake pipe and timers
    ghost var honoured: set<Fd>        // registrations the kernel accepted in full
    ghost var answers: seq<Addition>   // every addition asked for, in order

    /** The kernel never monitors anything that is not registered, additions it refused leave the
        later filter out, and an honoured registration is monitored exactly as asked. */
    ghost predicate Valid()
      reads this
    {
      && (forall fd :: (fd, Read) in kernel ==> fd in fdEntries && fdEntries[fd].readable)
      && (forall fd :: (fd, Write) in kernel ==>
            fd in fdEntries && fdEntries[fd].writable && (fdEntries[fd].readable ==> (fd, Read) in kernel))
      && (forall fd :: fd in honoured ==> fd in fdEntries)
      && (forall fd :: fd in honoured ==> fdEntries[fd].readable ==> (fd, Read) in kernel)
      && (forall fd :: fd in honoured ==> fdEntries[fd].writable ==> (fd, Write) in kernel)
    }

    constructor ()
      ensures Valid() && fdEntries == map[] && kernel == {}
    {
      fdEntries, kernel, honoured, answers := map[], {}, {}, [];
    }

    /** One EV_ADD change. */
    method KernelAdd(fd: Fd, f: Filter) returns (ok: bool)
      modifies `kernel, `answers
      ensures kernel == (if ok then old(kernel) + {(fd, f)} else old(kernel)) && answers == old(answers) + [Addition(fd, f, ok)]
    {
      ok := *;
      answers := answers + [Addition(fd, f, ok)];
      if ok { kernel := kernel + {(fd, f)}; }
    }

    /** One EV_DELETE change. */
    method KernelDelete(fd: Fd, f: Filter) returns (ok: bool)
      modifies `kernel
      ensures ok == ((fd, f) in old(kernel)) && kernel == old(kernel) - {(fd, f)}
    {
      ok := (fd, f) in kernel;
      kernel := kernel - {(fd, f)};
    }

    /** Drops the registration and every filter the kernel holds for it, even one left behind by a
        partly refused registration. */
    method Remove(fd: Fd)
      requires Valid()
      modifies `fdEntries, `kernel, `honoured
      ensures Valid() && fdEntries == old(fdEntries) - {fd}
      ensures (fd, Read) !in kernel && (fd, Write) !in kernel
      ensures forall g, f :: g != fd ==> ((g, f) in kernel <==> (g, f) in old(kernel))
      ensures honoured == old(honoured) - {fd}
    {
      if fd !in fdEntries { return; }
      var e := fdEntries[fd];
      var ok := true;
      if e.readable { ok := KernelDelete(fd, Read); }
      if ok && e.writable { ok := KernelDelete(fd, Write); }
      fdEntries, honoured := fdEntries - {fd}, honoured - {fd};
    }

    /** The change list of `watch`: readable first, and the kernel gives up at the first refusal. */
    method Ask(fd: Fd, events: Interest) returns (ok: bool)
      modifies `kernel, `answers
      ensures kernel == old(kernel) + (if events.readable && (fd, Read) in kernel then {(fd, Read)} else {})
                                    + (if events.writable && (fd, Write) in kernel then {(fd, Write)} else {})
      ensures ok ==> (events.readable ==> (fd, Read) in kernel) && (events.writable ==> (fd, Write) in kernel)
      ensures (fd, Write) in kernel && (fd, Write) !in old(kernel) && events.readable ==> (fd, Read) in kernel
      ensures old(answers) <= answers && AskedFor(answers, old(|answers|), fd, events, ok)
    {
      ok := true;
      if events.readable { ok := KernelAdd(fd, Read); }
      if ok && events.writable { ok := KernelAdd(fd, Write); }
      assert !ok ==> !answers[|answers| - 1].accepted;
    }

    /** Replaces the registration of fd.  It fails exactly if the kernel refused one of the filters it was
        asked for; otherwise the kernel monitors exactly those. */
    method Watch(fd: Fd, events: Interest) returns (ok: bool)
      requires Valid()
      modifies this
      ensures Valid() && fdEntries == old(fdEntries)[fd := events]
      ensures ok ==> ((fd, Read) in kernel <==> events.readable) && ((fd, Write) in kernel <==> events.writable)
      ensures forall g, f :: g != fd ==> ((g, f) in kernel <==> (g, f) in old(kernel))
      ensures honoured == if ok then old(honoured) + {fd} else old(honoured) - {fd}
      ensures old(answers) <= answers && AskedFor(answers, old(|answers|), fd, events, ok)
    {
      Remove(fd);
      fdEntries := fdEntries[fd := events];
      ok := Ask(fd, events);
      if ok { honoured := honoured + {fd}; }
    }
  }
}
