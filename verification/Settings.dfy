/** The settings cache of database.py: one process reads through it while another writes the table.
    Times are readings of a monotonic clock.  The ghost fields remember every table there has been. */
module Settings {
  import opened Tables

  /** The table from one instant to the next version. */
  datatype Version = Version(since: real, table: map<string, string>)

  const TTL := 8.0

  function Get(table: map<string, string>, key: string): Option<string> {
    if key in table then Some(table[key]) else None
  }

  /** At some instant between from and to the table held v for key (None: nothing). */
  ghost predicate Held(past: seq<Version>, from: real, to: real, key: string, v: Option<string>) {
    exists i | 0 <= i < |past| :: During(past, i, from, to) && Get(past[i].table, key) == v
  }

  predicate During(past: seq<Version>, i: nat, from: real, to: real)
    requires i < |past|
  {
    past[i].since <= to && (i + 1 < |past| ==> from <= past[i + 1].since)
  }

  /** What was held in an interval was held in every longer one, whatever is written later. */
  lemma HeldLonger(past: seq<Version>, from: real, to: real, key: string, v: Option<string>,
                   more: seq<Version>, from': real, to': real)
    requires Held(past, from, to, key, v) && from' <= from <= to <= to'
    requires forall i | 0 <= i < |more| :: to <= more[i].since
    ensures Held(past + more, from', to', key, v)
  {
    var i :| 0 <= i < |past| && During(past, i, from, to) && Get(past[i].table, key) == v;
    assert During(past + more, i, from', to');
  }

  class SettingsCache {
    var table: map<string, string>
    var cache: Option<map<string, string>>
    var loadedAt: real
    ghost var past: seq<Version>
    ghost var selectedAt: real
    ghost var clock: real

    ghost predicate Valid()
      reads this
    {
      && past != [] && past[|past| - 1].table == table
      && past[|past| - 1].since <= clock
      && (forall i | 0 < i < |past| :: past[i - 1].since <= past[i].since)
      && (cache.Some? ==> selectedAt <= loadedAt <= clock)
    }

    /** Every cached entry was the table's at some instant since the cache was read. */
    ghost predicate Fresh()
      reads this
    {
      cache.Some? ==> forall k :: Held(past, selectedAt, clock, k, Get(cache.value, k))
    }

    constructor (rows: map<string, string>, now: real)
      ensures Valid() && Fresh() && cache.None? && table == rows && clock == now && past == [Version(now, rows)]
    {
      table, cache, loadedAt := rows, None, 0.0;
      past, selectedAt, clock := [Version(now, rows)], 0.0, now;
    }

    ghost method Tick(now: real)
      requires Valid() && clock <= now
      modifies this`clock
      ensures Valid() && (old(Fresh()) ==> Fresh()) && clock == now
    {
      if cache.Some? && Fresh() {
        forall k ensures Held(past, selectedAt, now, k, Get(cache.value, k)) {
          HeldLonger(past, selectedAt, clock, k, Get(cache.value, k), [], selectedAt, now);
          assert past + [] == past;
        }
      }
      clock := now;
    }

    /** A committed write that leaves the table as rows, by this process or another. */
    method Write(now: real, rows: map<string, string>)
      requires Valid() && clock <= now
      modifies this`table, this`past, this`clock
      ensures Valid() && (old(Fresh()) ==> Fresh()) && clock == now && table == rows
      ensures past == old(past) + [Version(now, rows)]
    {
      if cache.Some? && Fresh() {
        forall k ensures Held(past + [Version(now, rows)], selectedAt, now, k, Get(cache.value, k)) {
          HeldLonger(past, selectedAt, clock, k, Get(cache.value, k), [Version(now, rows)], selectedAt, now);
        }
      }
      table := rows;
      past := past + [Version(now, rows)];
      clock := now;
    }

    /** _load_settings_cache (database.py:960-966): the rows are read at one instant and the time is
        noted at a later one; another process may write in between. */
    method LoadSettingsCache(select: real, loaded: real, meanwhile: map<string, string>)
      requires Valid() && clock <= select <= loaded
      modifies this
      ensures Valid() && Fresh() && clock == loaded
      ensures cache == Some(old(table)) && selectedAt == select && loadedAt == loaded
      ensures table == meanwhile && past == old(past) + [Version(loaded, meanwhile)]
    {
      Tick(select);
      var rows := table;
      ghost var read := past;
      Write(loaded, meanwhile);
      cache := Some(rows);
      selectedAt := select;
      loadedAt := loaded;
      forall k ensures Held(past, selectedAt, clock, k, Get(rows, k)) {
        assert During(past, |read| - 1, select, loaded);
        assert past[|read| - 1].table == rows;
      }
    }

    /** get_setting (database.py:944-958).  A fresh cache stays fresh and a reloaded one is, and from a
        fresh one the value served was in the table at some instant of the last eight seconds and the
        time the load took; the default is served only if at such an instant there was none. */
    method GetSetting(key: string, default: string, now: real, select: real, loaded: real,
                      meanwhile: map<string, string>)
      returns (value: string)
      requires Valid() && clock <= now <= select <= loaded
      modifies this
      ensures Valid() && cache.Some?
      ensures value == if key in cache.value then cache.value[key] else default
      ensures Fresh() ==> Held(past, clock - 8.0 - (loadedAt - selectedAt), clock, key, Get(cache.value, key))
      ensures var reload := old(cache).None? || now - old(loadedAt) > 8.0;
              && (old(Fresh()) || reload ==> Fresh())
              && (if reload then cache == Some(old(table)) && loadedAt == loaded
                  else cache == old(cache) && loadedAt == old(loadedAt) && past == old(past) && table == old(table))
    {
      if cache.None? || now - loadedAt > TTL {
        LoadSettingsCache(select, loaded, meanwhile);
      } else {
        Tick(now);
      }
      if Fresh() {
        HeldLonger(past, selectedAt, clock, key, Get(cache.value, key), [], clock - TTL - (loadedAt - selectedAt),
                   clock);
        assert past + [] == past;
      }
      value := if key in cache.value then cache.value[key] else default;
    }

    /** set_setting (database.py:968-976). */
    method SetSetting(key: string, value: string, now: real)
      requires Valid() && clock <= now
      modifies this
      ensures Valid() && (old(Fresh()) ==> Fresh()) && clock == now && loadedAt == old(loadedAt)
      ensures table == old(table)[key := value]
      ensures cache == if old(cache).Some? then Some(old(cache).value[key := value]) else None
    {
      Write(now, table[key := value]);
      if cache.Some? {
        assert During(past, |past| - 1, selectedAt, clock);
        CacheEntry(key, value);
      }
    }

    /** set_setting_default (database.py:978-986): the row is inserted only if missing, but the cached
        entry is made if the cache lacks one.  What it caches is what is stored exactly unless another
        process has stored a different value since the cache was read; and a fresh cache stays fresh
        exactly if it had the entry, or the row was missing, or the table has held just this value at
        some instant since the cache was read. */
    method SetSettingDefault(key: string, value: string, now: real)
      requires Valid() && clock <= now
      modifies this
      ensures Valid() && clock == now && loadedAt == old(loadedAt) && selectedAt == old(selectedAt)
      ensures table == if key in old(table) then old(table) else old(table)[key := value]
      ensures past == old(past) + [Version(now, table)]
      ensures cache == if old(cache).Some? && key !in old(cache).value
                       then Some(old(cache).value[key := value]) else old(cache)
      ensures old(cache).Some? && key !in old(cache).value ==>
                (cache.value[key] == table[key] <==> key !in old(table) || old(table)[key] == value)
      ensures old(Fresh()) ==>
                (Fresh() <==> || old(cache).None? || key in old(cache).value || key !in old(table)
                              || Held(old(past), old(selectedAt), now, key, Some(value)))
    {
      Write(now, if key in table then table else table[key := value]);
      if cache.Some? && key !in cache.value {
        CacheEntry(key, value);
        DefaultHeld(old(past), Version(now, table), old(table), selectedAt, key, value);
      }
    }

    /** self._settings_cache[key] = value: a fresh cache stays fresh exactly if the table has held the
        value since the cache was read. */
    method CacheEntry(key: string, value: string)
      requires Valid() && cache.Some?
      modifies this`cache
      ensures Valid() && cache == Some(old(cache).value[key := value])
      ensures old(Fresh()) ==> (Fresh() <==> Held(past, selectedAt, clock, key, Some(value)))
    {
      ghost var before := cache.value;
      ghost var current := Fresh();
      cache := Some(cache.value[key := value]);
      if current && Held(past, selectedAt, clock, key, Some(value)) {
        forall k ensures Held(past, selectedAt, clock, k, Get(cache.value, k)) {
          if k != key { assert Held(past, selectedAt, clock, k, Get(before, k)); }
        }
      }
      assert Get(cache.value, key) == Some(value);
    }
  }

  /** Putting a default where there was a row adds nothing to what has been held; putting it where there
      was none makes it held. */
  lemma DefaultHeld(past: seq<Version>, next: Version, table: map<string, string>, from: real,
                    key: string, value: string)
    requires past != [] && past[|past| - 1].table == table && past[|past| - 1].since <= next.since
    requires from <= next.since
    requires next.table == if key in table then table else table[key := value]
    ensures Held(past + [next], from, next.since, key, Some(value))
            <==> key !in table || Held(past, from, next.since, key, Some(value))
  {
    var n, all := |past|, past + [next];
    if key !in table {
      assert During(all, n, from, next.since);
    } else if i :| 0 <= i <= n && During(all, i, from, next.since) && Get(all[i].table, key) == Some(value) {
      assert During(past, if i < n then i else n - 1, from, next.since);
    }
    if Held(past, from, next.since, key, Some(value)) {
      HeldLonger(past, from, next.since, key, Some(value), [next], from, next.since);
    }
  }

  /** Own writes are read back until the next reload, whatever other processes write meanwhile and
      whenever they do. */
  method OwnWriteReadBack(s: SettingsCache, key: string, value: string, default: string, written: real,
                          others: seq<Version>, now: real)
    returns (read: string)
    requires s.Valid() && s.clock <= written <= now
    requires forall i | 0 <= i < |others| :: written <= others[i].since <= now
    requires forall i | 0 < i < |others| :: others[i - 1].since <= others[i].since
    requires s.cache.Some? && now - s.loadedAt <= 8.0
    modifies s
    ensures read == value
  {
    s.SetSetting(key, value, written);
    for i := 0 to |others|
      invariant s.Valid() && s.clock == if i == 0 then written else others[i - 1].since
      invariant s.cache.Some? && key in s.cache.value && s.cache.value[key] == value
      invariant s.loadedAt == old(s.loadedAt)
    {
      s.Write(others[i].since, others[i].table);
    }
    read := s.GetSetting(key, default, now, now, now, map[]);
  }

  /** The one call that breaks this: a key the cache lacks, stored by another process as "on" after the
      cache was read, is given the default "off" and served as such, though the table never held it. */
  method NeverStored(now: real) returns (s: SettingsCache, value: string)
    ensures fresh(s) && s.Valid() && !s.Fresh()
    ensures value == "off"
    ensures forall i | 0 <= i < |s.past| :: Get(s.past[i].table, "sales") != Some("off")
  {
    s := new SettingsCache(map[], now);
    s.LoadSettingsCache(now, now, map[]);
    s.Write(now + 1.0, map["sales" := "on"]);
    s.SetSettingDefault("sales", "off", now + 2.0);
    value := s.GetSetting("sales", "", now + 3.0, now + 3.0, now + 3.0, map[]);
    assert s.past == [Version(now, map[]), Version(now, map[]), Version(now + 1.0, map["sales" := "on"]),
                      Version(now + 2.0, map["sales" := "on"])];
    forall i | 0 <= i < |s.past| ensures Get(s.past[i].table, "sales") != Some("off") {}
    assert !Held(s.past, s.selectedAt, s.clock, "sales", Get(s.cache.value, "sales"));
  }
}
