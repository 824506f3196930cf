/** Configuration blocks: parameters looked up through the enclosing blocks, with a cache, and typos found. */
module Configure {

  import opened Wrappers

  type Block = nat

  /** A parameter, by the block that declares it and the name it is declared under. */
  type Entry = (Block, string)

  const SEVERITIES := ["clear", "warning", "minor", "major", "critical"]

  /** Blocks are made after the blocks they are in, and every block has its parameters. */
  ghost predicate WellFormed(parent: map<Block, Block>, param: map<Block, map<string, string>>) {
    forall n :: n in parent ==> parent[n] < n && parent[n] in param
  }

  // ---- what a lookup means ----

  /** The nearest block outward that declares a name. */
  function Walk(parent: map<Block, Block>, param: map<Block, map<string, string>>, n: Block, name: string): (r: Option<Entry>)
    requires WellFormed(parent, param) && n in param
    ensures r.Some? ==> r.value.0 in param && r.value.1 == name && name in param[r.value.0]
  {
    if name in param[n] then Some((n, name))
    else if n in parent then Walk(parent, param, parent[n], name)
    else None
  }

  /** A block's own `name!` comes first; it is not for the blocks inside. */
  function Lookup(parent: map<Block, Block>, param: map<Block, map<string, string>>, n: Block, name: string): (r: Option<Entry>)
    requires WellFormed(parent, param) && n in param
    ensures r.Some? ==> r.value.0 in param && r.value.1 in param[r.value.0]
  {
    if name + "!" in param[n] then Some((n, name + "!")) else Walk(parent, param, n, name)
  }

  /** The blocks a lookup may look at: the block itself and those around it. */
  ghost predicate Encloses(parent: map<Block, Block>, m: Block, n: Block)
    requires forall k :: k in parent ==> parent[k] < k
    decreases n
  {
    m == n || (n in parent && Encloses(parent, m, parent[n]))
  }

  /** The walk finds the innermost declaration: it is around, and nothing between declares the name. */
  lemma {:induction false} WalkIsInnermost(parent: map<Block, Block>, param: map<Block, map<string, string>>,
                                           n: Block, name: string, m: Block)
    requires WellFormed(parent, param) && n in param
    ensures Walk(parent, param, n, name) == Some((m, name)) <==>
            Encloses(parent, m, n) && m in param && name in param[m]
            && forall k: Block :: Encloses(parent, k, n) && k in param && name in param[k] ==> k <= m
    decreases n
  {
    if name in param[n] {
      forall k: Block | Encloses(parent, k, n) ensures k <= n {
        EnclosesBelow(parent, k, n);
      }
      assert Encloses(parent, n, n);
    } else if n in parent {
      WalkIsInnermost(parent, param, parent[n], name, m);
      assert forall k: Block :: Encloses(parent, k, n) <==> k == n || Encloses(parent, k, parent[n]);
    }
  }

  lemma {:induction false} EnclosesBelow(parent: map<Block, Block>, m: Block, n: Block)
    requires forall k :: k in parent ==> parent[k] < k
    requires Encloses(parent, m, n)
    ensures m <= n
    decreases n
  {
    if m != n {
      EnclosesBelow(parent, m, parent[n]);
    }
  }

  /** Declaring `name!` in one block changes nothing for any other block, unless that very name is asked for. */
  lemma {:induction false} OnlyWhereDeclared(parent: map<Block, Block>, param: map<Block, map<string, string>>,
                                             m: Block, name: string, v: string, n: Block, asked: string)
    requires WellFormed(parent, param) && n in param && m in param
    requires n != m && asked != name + "!"
    ensures Lookup(parent, param[m := param[m][name + "!" := v]], n, asked) == Lookup(parent, param, n, asked)
  {
    SameWalk(parent, param, m, name + "!", v, n, asked);
  }

  lemma {:induction false} SameWalk(parent: map<Block, Block>, param: map<Block, map<string, string>>,
                                    m: Block, key: string, v: string, n: Block, asked: string)
    requires WellFormed(parent, param) && n in param && m in param && asked != key
    ensures Walk(parent, param[m := param[m][key := v]], n, asked) == Walk(parent, param, n, asked)
    decreases n
  {
    if asked !in param[n] && n in parent {
      SameWalk(parent, param, m, key, v, parent[n], asked);
    }
  }

  /** The names a structure's fields are looked up under: by severity first, when it has one value for each. */
  datatype Field = Field(name: string, dotsev: bool)

  function Names(fields: seq<Field>): seq<string> {
    if fields == [] then []
    else
      var f := fields[|fields| - 1];
      Names(fields[..|fields| - 1])
      + (if f.dotsev then seq(|SEVERITIES|, i requires 0 <= i < |SEVERITIES| => f.name + "." + SEVERITIES[i]) else [])
      + [f.name]
  }

  /** A field with one value for each severity has a name for each, and then its own; any other just its own. */
  lemma NamesAre(fields: seq<Field>, f: Field)
    ensures !f.dotsev ==> Names(fields + [f]) == Names(fields) + [f.name]
    ensures f.dotsev ==>
              var n := f.name;
              Names(fields + [f]) ==
                Names(fields) + [n + ".clear", n + ".warning", n + ".minor", n + ".major", n + ".critical", n]
  {
    assert (fields + [f])[..|fields|] == fields;
    if f.dotsev {
      var n := f.name;
      var each := seq(|SEVERITIES|, i requires 0 <= i < |SEVERITIES| => n + "." + SEVERITIES[i]);
      Dotted(n, "clear", ".clear");
      Dotted(n, "warning", ".warning");
      Dotted(n, "minor", ".minor");
      Dotted(n, "major", ".major");
      Dotted(n, "critical", ".critical");
      assert each == [n + ".clear", n + ".warning", n + ".minor", n + ".major", n + ".critical"];
    }
  }

  lemma Dotted(name: string, sev: string, dotted: string)
    requires dotted == "." + sev
    ensures name + "." + sev == name + dotted
  {
  }

  /** What a block declares for itself alone comes before all else, and is found from nowhere but there. */
  lemma LocalFirst(parent: map<Block, Block>, param: map<Block, map<string, string>>, n: Block, name: string)
    requires WellFormed(parent, param) && n in param
    ensures name + "!" in param[n] ==> Lookup(parent, param, n, name) == Some((n, name + "!"))
    ensures var r := Lookup(parent, param, n, name);
            r.Some? && r.value.1 != name ==> r.value == (n, name + "!") && name + "!" in param[n]
    ensures name + "!" !in param[n] && name in param[n] ==> Lookup(parent, param, n, name) == Some((n, name))
  {
  }

  function Found(rs: seq<Option<Entry>>): set<Entry> {
    set i | 0 <= i < |rs| && rs[i].Some? :: rs[i].value
  }

  class Config {
    const parent: map<Block, Block>
    const param: map<Block, map<string, string>>
    var cache: map<Block, map<string, Option<Entry>>>   // a block without one has had its cache drained
    var used: set<Entry>

    ghost predicate Valid()
      reads this
    {
      && WellFormed(parent, param)
      && CacheRight(parent, param, cache, used)
    }

    constructor (parent: map<Block, Block>, param: map<Block, map<string, string>>)
      requires WellFormed(parent, param)
      ensures Valid() && used == {} && this.parent == parent && this.param == param
    {
      this.parent, this.param := parent, param;
      cache := map n | n in param :: map[];
      used := {};
    }

    /** Look a name up; only the block asked first uses its own `name!`. */
    method IGet(n: Block, name: string, useInherit: bool) returns (r: Option<Entry>)
      requires Valid() && n in param
      modifies this`cache, this`used
      ensures Valid()
      ensures r == if useInherit then Lookup(parent, param, n, name) else Walk(parent, param, n, name)
      ensures used == old(used) + if r.Some? then {r.value} else {}
      decreases n
    {
      if useInherit {
        if name + "!" in param[n] {
          used := used + {(n, name + "!")};
          return Some((n, name + "!"));
        }
      }
      if name in param[n] {
        used := used + {(n, name)};
        return Some((n, name));
      }
      if n in cache && name in cache[n] {
        return cache[n][name];
      }
      if n in parent {
        r := IGet(parent[n], name, false);
        if n in cache {
          CacheMore(parent, param, cache, used, n, name, r);
          cache := cache[n := cache[n][name := r]];
        }
        return r;
      }
      return None;
    }

    method Get(n: Block, name: string) returns (r: Option<Entry>)
      requires Valid() && n in param
      modifies this`cache, this`used
      ensures Valid() && r == Lookup(parent, param, n, name)
      ensures used == old(used) + if r.Some? then {r.value} else {}
    {
      r := IGet(n, name, true);
    }

    /** Forget what was cached in a block. */
    method DrainCache(n: Block)
      requires Valid()
      modifies this`cache
      ensures Valid() && cache == old(cache) - {n}
    {
      cache := cache - {n};
    }

    /** Fill a structure from a block, field by field. */
    method InitFromConfig(n: Block, fields: seq<Field>) returns (rs: seq<Option<Entry>>)
      requires Valid() && n in param
      modifies this`cache, this`used
      ensures Valid() && |rs| == |Names(fields)|
      ensures forall i :: 0 <= i < |rs| ==> rs[i] == Lookup(parent, param, n, Names(fields)[i])
      ensures used == old(used) + Found(rs)
    {
      var names := Names(fields);
      rs := [];
      for i := 0 to |names|
        invariant Valid() && |rs| == i
        invariant forall k :: 0 <= k < i ==> rs[k] == Lookup(parent, param, n, names[k])
        invariant used == old(used) + Found(rs)
      {
        var r := Get(n, names[i]);
        FoundMore(rs, r);
        rs := rs + [r];
      }
    }

    /** Any number of blocks filled, in any order, with caches drained in between. */
    method Session(cs: seq<Call>)
      requires Valid() && forall c :: c in cs ==> c.n in param
      modifies this`cache, this`used
      ensures Valid() && used == old(used) + Reached(parent, param, cs)
    {
      for i := 0 to |cs|
        invariant Valid() && used == old(used) + Reached(parent, param, cs[..i])
      {
        ghost var rs: seq<Option<Entry>> := [];
        match cs[i] {
          case Init(n, fields) => rs := InitFromConfig(n, fields);
          case Drain(n) => DrainCache(n);
        }
        ReachedMore(parent, param, cs, i, rs);
      }
      assert cs[..|cs|] == cs;
    }

    /** A block's parameters that no lookup has come to. */
    method CheckTypos(n: Block) returns (typos: set<string>)
      requires n in param
      ensures typos == set key | key in param[n] && (n, key) !in used
    {
      typos := {};
      var keys := param[n].Keys;
      while keys != {}
        invariant keys <= param[n].Keys
        invariant typos == set key | key in param[n] && key !in keys && (n, key) !in used
      {
        var key :| key in keys;
        keys := keys - {key};
        if (n, key) !in used {
          typos := typos + {key};
        }
      }
    }
  }

  /** A whole session: blocks filled one after another, caches drained whenever, then one block checked. */
  datatype Call = Init(n: Block, fields: seq<Field>) | Drain(n: Block)

  /** What the session's lookups came to. */
  ghost function Reached(parent: map<Block, Block>, param: map<Block, map<string, string>>, cs: seq<Call>): set<Entry>
    requires WellFormed(parent, param) && forall c :: c in cs ==> c.n in param
  {
    set c, name | c in cs && c.Init? && name in Names(c.fields) && Lookup(parent, param, c.n, name).Some?
      :: Lookup(parent, param, c.n, name).value
  }

  lemma ReachedMore(parent: map<Block, Block>, param: map<Block, map<string, string>>, cs: seq<Call>, i: nat,
                    rs: seq<Option<Entry>>)
    requires WellFormed(parent, param) && (forall c :: c in cs ==> c.n in param) && i < |cs|
    requires var names := if cs[i].Init? then Names(cs[i].fields) else [];
             |rs| == |names| && forall k :: 0 <= k < |rs| ==> rs[k] == Lookup(parent, param, cs[i].n, names[k])
    ensures Reached(parent, param, cs[..i + 1]) == Reached(parent, param, cs[..i]) + Found(rs)
  {
    assert cs[..i + 1] == cs[..i] + [cs[i]];
    forall e | e in Found(rs) ensures e in Reached(parent, param, cs[..i + 1]) {
      var k :| 0 <= k < |rs| && rs[k].Some? && rs[k].value == e;
      assert cs[i] in cs[..i + 1] && Names(cs[i].fields)[k] in Names(cs[i].fields);
    }
    forall e | e in Reached(parent, param, cs[..i + 1]) ensures e in Reached(parent, param, cs[..i]) + Found(rs) {
      var c, name :| c in cs[..i + 1] && c.Init? && name in Names(c.fields) && Lookup(parent, param, c.n, name).Some?
                     && Lookup(parent, param, c.n, name).value == e;
      if c !in cs[..i] {
        var k :| 0 <= k < |Names(c.fields)| && Names(c.fields)[k] == name;
        assert rs[k].value == e;
      }
    }
  }

  /** What is cached in a block is what the walk from the block around it finds, and was marked when it was found. */
  ghost predicate CacheRight(parent: map<Block, Block>, param: map<Block, map<string, string>>,
                             cache: map<Block, map<string, Option<Entry>>>, used: set<Entry>)
    requires WellFormed(parent, param)
  {
    forall n, name :: n in cache && name in cache[n] ==>
                        && n in parent
                        && cache[n][name] == Walk(parent, param, parent[n], name)
                        && (cache[n][name].Some? ==> cache[n][name].value in used)
  }

  lemma CacheMore(parent: map<Block, Block>, param: map<Block, map<string, string>>,
                  cache: map<Block, map<string, Option<Entry>>>, used: set<Entry>, n: Block, name: string, r: Option<Entry>)
    requires WellFormed(parent, param) && CacheRight(parent, param, cache, used)
    requires n in cache && n in parent && r == Walk(parent, param, parent[n], name) && (r.Some? ==> r.value in used)
    ensures CacheRight(parent, param, cache[n := cache[n][name := r]], used)
  {
  }

  lemma FoundMore(rs: seq<Option<Entry>>, r: Option<Entry>)
    ensures Found(rs + [r]) == Found(rs) + if r.Some? then {r.value} else {}
  {
    forall e | e in Found(rs) ensures e in Found(rs + [r]) {
      var i :| 0 <= i < |rs| && rs[i].Some? && rs[i].value == e;
      assert (rs + [r])[i] == rs[i];
    }
    if r.Some? {
      assert (rs + [r])[|rs|] == r;
    }
  }
}
