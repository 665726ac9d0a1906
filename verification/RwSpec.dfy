/** A readers/writer lock seen from outside: who is in which kind of section. */
module RwSpec {
  import opened Bytes

  datatype RwLock = RwLock(readers: set<nat>, writer: Option<nat>)

  const FREE := RwLock({}, None)

  predicate MayRead(l: RwLock) {
    l.writer.None?
  }

  predicate MayWrite(l: RwLock) {
    l.writer.None? && l.readers == {}
  }

  function Enter(l: RwLock, t: nat, writing: bool): RwLock {
    if writing then l.(writer := Some(t)) else l.(readers := l.readers + {t})
  }

  function Leave(l: RwLock, t: nat, writing: bool): RwLock {
    if writing then l.(writer := None) else l.(readers := l.readers - {t})
  }
}
