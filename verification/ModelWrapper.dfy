/** The state-dict cache that keeps storages stable across saves (ModelWrapper in
    torchtitan/components/checkpointer/base.py). Storages are objects, so identity and in-place writes are real. */
module ModelWrapper {

  class Storage {
    var data: seq<real>
    const meta: nat  // shape and dtype

    constructor (data: seq<real>, meta: nat)
      ensures this.data == data && this.meta == meta
    {
      this.data, this.meta := data, meta;
    }
  }

  type Contents = map<string, seq<real>>

  /** A state-dict hook makes a new tensor from the parameters on every call. */
  datatype Hook = Hook(meta: nat, produce: Contents -> seq<real>)

  /** A model: parameters with fixed storages, the keys that expose them, and the keys hooks add. */
  class Model {
    const params: map<string, Storage>
    const exposed: set<string>
    const hooks: map<string, Hook>
    const storages: set<Storage>

    constructor (params: map<string, Storage>, exposed: set<string>, hooks: map<string, Hook>)
      requires exposed <= params.Keys && exposed !! hooks.Keys
      ensures Valid() && this.params == params && this.exposed == exposed && this.hooks == hooks
    {
      this.params, this.exposed, this.hooks := params, exposed, hooks;
      storages := set k | k in params :: params[k];
    }

    predicate Valid() {
      exposed <= params.Keys && exposed !! hooks.Keys && forall k | k in params :: params[k] in storages
    }

    predicate HasKey(k: string) {
      k in exposed || k in hooks
    }

    function ParamContents(): Contents
      requires Valid()
      reads storages
    {
      map k | k in params :: params[k].data
    }

    /** What a state dict taken when the parameters were c says of the key. */
    predicate Holds(storage: Storage, k: string, c: Contents)
      requires Valid() && HasKey(k) && c.Keys == params.Keys
      reads storage
    {
      if k in exposed then storage.data == c[k] else storage.data == hooks[k].produce(c) && storage.meta == hooks[k].meta
    }

    /** The tensor a hook makes. */
    method Produce(key: string) returns (value: Storage)
      requires Valid() && key in hooks
      ensures fresh(value) && ParamContents() == old(ParamContents()) && Holds(value, key, ParamContents())
    {
      ghost var c := ParamContents();
      value := new Storage(hooks[key].produce(ParamContents()), hooks[key].meta);
      assert ParamContents() == c;
    }

    /** model.state_dict(): exposed parameters by reference, hook tensors newly allocated. */
    method StateDict() returns (d: map<string, Storage>, ghost owner: map<Storage, string>)
      requires Valid()
      ensures (forall k :: k in d <==> HasKey(k)) && ParamContents() == old(ParamContents())
      ensures forall k | k in exposed :: k in d && d[k] == params[k]
      ensures forall k | k in hooks :: k in d && fresh(d[k]) && Holds(d[k], k, ParamContents()) && d[k] in owner && owner[d[k]] == k
      ensures forall o | o in owner :: fresh(o)
    {
      d, owner := map k | k in exposed :: params[k], map[];
      ghost var c := ParamContents();
      var todo := hooks.Keys;
      while todo != {}
        invariant (forall k | k in todo :: k in hooks) && ParamContents() == c
        invariant forall k :: k in d <==> k in exposed || (k in hooks && k !in todo)
        invariant forall k | k in exposed :: k in d && d[k] == params[k]
        invariant forall k | k in hooks && k !in todo :: k in d && fresh(d[k]) && Holds(d[k], k, c) && d[k] in owner && owner[d[k]] == k
        invariant forall o | o in owner :: fresh(o)
        decreases |todo|
      {
        var key :| key in todo;
        var value := Produce(key);
        d, owner, todo := d[key := value], owner[value := key], todo - {key};
      }
    }

    /** Two names of one parameter. */
    predicate Tied(k: string, l: string) {
      k in params && l in params && params[k] == params[l]
    }

    /** Values that give a parameter the same value under all its names. */
    predicate Agree(values: Contents) {
      forall k, l | k in values && l in values && Tied(k, l) :: values[k] == values[l]
    }

    /** What a load of values leaves in k, which held data: a value loaded under one of its names, or, if there is none, data. */
    ghost predicate Takes(values: Contents, k: string, data: seq<real>)
      requires k in params
      reads params[k]
    {
      || (params[k].data == data && forall l | l in values :: !Tied(k, l))
      || (exists l :: l in values && Tied(k, l) && params[k].data == values[l])
    }

    /** One key of a load: it may be the last that is written under a name of its parameter. */
    method LoadOne(k: string, value: seq<real>, ghost loaded: Contents, ghost first: Contents)
      requires Valid() && k in params && k !in loaded && first.Keys == params.Keys
      requires forall j | j in params :: Takes(loaded, j, first[j])
      modifies params[k]
      ensures forall j | j in params :: Takes(loaded[k := value], j, first[j])
    {
      params[k].data := value;
      ghost var now := loaded[k := value];
      forall j | j in params ensures Takes(now, j, first[j]) {
        if Tied(j, k) {
          assert k in now;
        } else if l :| l in loaded && Tied(j, l) && params[j].data == loaded[l] {
          assert l in now;
        }
      }
    }

    lemma LoadedAll(values: Contents, loaded: Contents, first: Contents)
      requires Valid() && first.Keys == params.Keys
      requires forall l :: l in loaded <==> l in values && l in params
      requires forall l | l in loaded :: loaded[l] == values[l]
      requires forall j | j in params :: Takes(loaded, j, first[j])
      ensures forall j | j in params :: Takes(values, j, first[j])
      ensures Agree(values) ==> forall k, l | l in values && Tied(k, l) :: params[k].data == values[l]
    {
      forall j | j in params ensures Takes(values, j, first[j]) {
        assert forall l | l in values && Tied(j, l) :: l in loaded;
      }
    }

    /** load_state_dict: parameters are written in place, a tied one under each of its names. */
    method Load(values: Contents)
      requires Valid()
      modifies storages
      ensures forall k | k in params :: Takes(values, k, old(params[k].data))
      ensures Agree(values) ==> forall k, l | l in values && Tied(k, l) :: params[k].data == values[l]
    {
      hide Takes, Agree;
      var todo := params.Keys;
      ghost var loaded: Contents, first := map[], ParamContents();
      NothingLoaded(first);
      while todo != {}
        invariant forall k | k in todo :: k in params
        invariant forall l :: l in loaded <==> l in values && l in params && l !in todo
        invariant forall l | l in loaded :: loaded[l] == values[l]
        invariant forall k | k in params :: Takes(loaded, k, first[k])
        decreases |todo|
      {
        var k :| k in todo;
        if k in values {
          LoadOne(k, values[k], loaded, first);
          loaded := loaded[k := values[k]];
        }
        todo := todo - {k};
      }
      LoadedAll(values, loaded, first);
    }

    lemma NothingLoaded(first: Contents)
      requires Valid() && first == ParamContents()
      ensures forall j | j in params :: Takes(map[], j, first[j])
    {
    }
  }

  class ModelWrapper {
    const model: Model
    var cached: map<string, Storage>
    ghost var owner: map<Storage, string>  // the hook key each storage of the cache alone belongs to

    constructor (model: Model)
      requires model.Valid()
      ensures Valid() && this.model == model && forall k :: k in cached <==> model.HasKey(k)
    {
      this.model := model;
      cached, owner := map[], map[];
      new;
      cached, owner := model.StateDict();
    }

    /** Exposed keys hold the parameters' own storages; hook keys hold storages of the cache alone. */
    ghost predicate Valid()
      reads this
    {
      && model.Valid() && (forall k | k in cached :: model.HasKey(k))
      && (forall k | k in model.exposed && k in cached :: cached[k] == model.params[k])
      && (forall k | k in model.hooks && k in cached :: cached[k] !in model.storages && cached[k] in owner && owner[cached[k]] == k)
    }

    /** The storages of hook keys, the only ones state_dict writes. */
    ghost function Owned(): set<Storage>
      reads this
    {
      set k | k in model.hooks && k in cached :: cached[k]
    }

    /** One key of the merge: keep the cached storage if it fits, and write the value into it. */
    method Merge(key: string, value: Storage, ghost c: Contents)
      requires Valid() && model.HasKey(key) && model.ParamContents() == c && model.Holds(value, key, c)
      requires if key in model.exposed then value == model.params[key] else value !in model.storages && value !in owner
      modifies this`cached, this`owner, if key in model.hooks && key in cached then {cached[key]} else {}
      ensures Valid() && key in cached && model.ParamContents() == c && model.Holds(cached[key], key, c)
      ensures cached == old(cached)[key := if key in old(cached) && old(cached)[key].meta == value.meta then old(cached)[key] else value]
      ensures forall k | k in old(cached) && k != key :: k in cached && cached[k] == old(cached[k]) && cached[k].data == old(cached[k].data)
      ensures owner == if key in model.hooks && cached[key] == value then old(owner)[value := key] else old(owner)
    {
      if key !in cached || cached[key].meta != value.meta {
        cached := cached[key := value];
        if key in model.hooks {
          owner := owner[value := key];
        }
      } else if cached[key] != value {
        cached[key].data := value.data;
      }
    }

    /** The key has the storage it had, unless its shape has changed. */
    ghost predicate Kept(before: map<string, Storage>, k: string)
      requires k in before
      reads this
    {
      (k in model.hooks ==> before[k].meta == model.hooks[k].meta) ==> k in cached && cached[k] == before[k]
    }

    /** Current values, in the storages the cache already had. */
    method StateDict() returns (d: map<string, Storage>)
      requires Valid()
      modifies this`cached, this`owner, Owned()
      ensures Valid() && d == cached && forall k :: k in d <==> model.HasKey(k)
      ensures model.ParamContents() == old(model.ParamContents())
      ensures forall k | k in d :: model.Holds(d[k], k, model.ParamContents())
      ensures forall k | k in old(cached) :: Kept(old(cached), k)
    {
      ghost var c := model.ParamContents();
      var current, made := model.StateDict();
      MergeExposed(current, c);
      MergeHooked(current, made, c);
      d := cached;
    }

    /** The exposed keys, whose values are already in place. */
    method MergeExposed(current: map<string, Storage>, ghost c: Contents)
      requires Valid() && model.ParamContents() == c
      requires forall k | k in model.exposed :: k in current && current[k] == model.params[k]
      modifies this`cached, this`owner
      ensures Valid() && model.ParamContents() == c && owner == old(owner)
      ensures forall k :: k in cached <==> k in old(cached) || k in model.exposed
      ensures forall k | k in old(cached) :: cached[k] == old(cached)[k]
    {
      var todo := model.exposed;
      while todo != {}
        invariant (forall k | k in todo :: k in model.exposed) && Valid() && model.ParamContents() == c && owner == old(owner)
        invariant forall k :: k in cached <==> k in old(cached) || (k in model.exposed && k !in todo)
        invariant forall k | k in old(cached) :: k in cached && cached[k] == old(cached)[k]
        decreases |todo|
      {
        var key :| key in todo;
        Merge(key, current[key], c);
        todo := todo - {key};
      }
    }

    /** A hook tensor to be merged. */
    ghost predicate Ready(current: map<string, Storage>, made: map<Storage, string>, c: Contents, k: string)
      requires model.Valid() && k in model.hooks && c.Keys == model.params.Keys
      reads this, current.Values
    {
      && k in current && current[k] in current.Values && current[k] in made && made[current[k]] == k
      && current[k] !in owner && current[k] !in model.storages && model.Holds(current[k], k, c)
    }

    /** One hook key, leaving the others ready. */
    method MergeOne(current: map<string, Storage>, ghost made: map<Storage, string>, ghost c: Contents, key: string, ghost todo: set<string>)
      requires Valid() && model.ParamContents() == c && key in todo
      requires forall k | k in todo :: k in model.hooks && Ready(current, made, c, k)
      modifies this`cached, this`owner, if key in cached then {cached[key]} else {}
      ensures Valid() && key in cached && model.ParamContents() == c && model.Holds(cached[key], key, c)
      ensures key in old(cached) && old(cached)[key].meta == model.hooks[key].meta ==> cached[key] == old(cached)[key]
      ensures forall k :: k in cached <==> k in old(cached) || k == key
      ensures forall k | k in old(cached) && k != key :: cached[k] == old(cached[k]) && cached[k].data == old(cached[k].data)
      ensures forall k | k in todo && k != key :: Ready(current, made, c, k)
    {
      assert Ready(current, made, c, key);
      Merge(key, current[key], c);
    }

    /** The keys made by hooks. */
    method MergeHooked(current: map<string, Storage>, ghost made: map<Storage, string>, ghost c: Contents)
      requires Valid() && model.ParamContents() == c
      requires forall k | k in model.hooks :: Ready(current, made, c, k)
      modifies this`cached, this`owner, Owned()
      ensures Valid() && model.ParamContents() == c && forall k :: k in cached <==> k in old(cached) || k in model.hooks
      ensures forall k | k in model.hooks :: model.Holds(cached[k], k, c)
      ensures forall k | k in old(cached) :: Kept(old(cached), k)
    {
      hide Ready, Model.HasKey, Model.Valid;
      ghost var before := cached;
      var todo := model.hooks.Keys;
      while todo != {}
        invariant (forall k | k in todo :: k in model.hooks) && Valid() && model.ParamContents() == c
        invariant forall k :: k in cached <==> k in before || (k in model.hooks && k !in todo)
        invariant forall k | k in todo :: Ready(current, made, c, k)
        invariant forall k | k in before ::
          cached[k] == before[k] || (k in model.hooks && k !in todo && before[k].meta != model.hooks[k].meta)
        invariant forall k | k in model.hooks && k !in todo :: model.Holds(cached[k], k, c)
        decreases |todo|
      {
        var key :| key in todo;
        MergeOne(current, made, c, key, todo);
        todo := todo - {key};
      }
    }

    /** load_state_dict: the parameters change in place, and hook keys get new storages. */
    method LoadStateDict(values: Contents)
      requires Valid()
      modifies this`cached, this`owner, model.storages
      ensures Valid() && forall k :: k in cached <==> model.HasKey(k)
      ensures forall k | k in model.params :: model.Takes(values, k, old(model.params[k].data))
      ensures model.Agree(values) ==> forall k, l | l in values && model.Tied(k, l) :: model.params[k].data == values[l]
      ensures forall k | k in cached :: model.Holds(cached[k], k, model.ParamContents())
    {
      hide Model.Takes, Model.Agree;
      model.Load(values);
      cached, owner := model.StateDict();
    }
  }
}
