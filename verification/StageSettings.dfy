/** How a stage gets its settings from its first finished parent, and its client
    (stage/stage_utils.go). */
module StageSettings {

  import opened Wrappers

  type Params = map<string, Option<string>>

  /** What a stage file can leave open. A session parameter without a value is not passed on. */
  datatype Settings = Settings(
    catalog: Option<string>, schema: Option<string>, timeZone: Option<string>,
    randomExecution: Option<bool>, noRandomDuplicates: Option<bool>, randomlyExecuteUntil: Option<string>,
    coldRuns: Option<int>, warmRuns: Option<int>,
    abortOnError: Option<bool>, saveOutput: Option<bool>, saveColumnMetadata: Option<bool>, saveJson: Option<bool>,
    sessionParams: Option<Params>)

  function Or<T>(own: Option<T>, other: Option<T>): Option<T> {
    if own.Some? then own else other
  }

  function OrZero(own: Option<int>): int {
    if own.Some? then own.value else 0
  }

  // ---------------------------------------------------------------- run counts

  /** The cold and warm runs that a stage ends up with, given its parent's. */
  datatype Counts = Counts(cold: Option<int>, warm: Option<int>)

  function InheritCounts(own: Counts, parent: Counts): Counts {
    var c :=
      if own.cold.None? && own.warm.None? then parent
      else Counts(Some(OrZero(own.cold)), Some(OrZero(own.warm)));
    AtLeastOne(c)
  }

  function AtLeastOne(c: Counts): Counts {
    if OrZero(c.cold) + OrZero(c.warm) <= 0 then Counts(Some(1), Some(0)) else c
  }

  function CountsOf(s: Settings): Counts {
    Counts(s.coldRuns, s.warmRuns)
  }

  // ---------------------------------------------------------------- defaults and inheritance

  function WithDefaults(s: Settings): Settings {
    var c := AtLeastOne(Counts(Some(OrZero(s.coldRuns)), Some(OrZero(s.warmRuns))));
    s.(randomExecution := Or(s.randomExecution, Some(false)),
       noRandomDuplicates := Or(s.noRandomDuplicates, Some(false)),
       abortOnError := Or(s.abortOnError, Some(false)),
       saveOutput := Or(s.saveOutput, Some(false)),
       saveColumnMetadata := Or(s.saveColumnMetadata, Some(false)),
       saveJson := Or(s.saveJson, Some(false)),
       coldRuns := c.cold, warmRuns := c.warm)
  }

  /** The parameters of the parent that have a value, and over them the stage's own. */
  function InheritParams(own: Option<Params>, parent: Option<Params>): Params {
    var mine: Params := if own.Some? then own.value else map[];
    var theirs: Params := if parent.Some? then parent.value else map[];
    (map k | k in theirs && theirs[k].Some? :: theirs[k]) + mine
  }

  function Inherit(own: Settings, parent: Settings): Settings {
    var c := InheritCounts(CountsOf(own), CountsOf(parent));
    Settings(
      Or(own.catalog, parent.catalog), Or(own.schema, parent.schema), Or(own.timeZone, parent.timeZone),
      Or(own.randomExecution, parent.randomExecution), Or(own.noRandomDuplicates, parent.noRandomDuplicates),
      Or(own.randomlyExecuteUntil, parent.randomlyExecuteUntil),
      c.cold, c.warm,
      Or(own.abortOnError, parent.abortOnError), Or(own.saveOutput, parent.saveOutput),
      Or(own.saveColumnMetadata, parent.saveColumnMetadata), Or(own.saveJson, parent.saveJson),
      Some(InheritParams(own.sessionParams, parent.sessionParams)))
  }

  /** Every setting that a run reads is there, and there is something to run. */
  predicate Complete(s: Settings) {
    && s.randomExecution.Some? && s.noRandomDuplicates.Some? && s.abortOnError.Some?
    && s.saveOutput.Some? && s.saveColumnMetadata.Some? && s.saveJson.Some?
    && s.coldRuns.Some? && s.warmRuns.Some? && s.coldRuns.value + s.warmRuns.value >= 1
  }

  /** The session parameters that have a value. */
  function OwnParams(s: Settings): map<string, string> {
    var own: Params := if s.sessionParams.Some? then s.sessionParams.value else map[];
    map k | k in own && own[k].Some? :: own[k].value
  }

  predicate Kept<T(==)>(own: Option<T>, now: Option<T>) {
    own.Some? ==> now == own
  }

  /** The stage sets session parameter k to a value. */
  predicate HasParam(s: Settings, k: string) {
    s.sessionParams.Some? && k in s.sessionParams.value && s.sessionParams.value[k].Some?
  }

  predicate SetsCount(s: Settings) {
    s.coldRuns.Some? || s.warmRuns.Some?
  }

  /** The cold and warm runs of a stage that sets either: a missing one is zero, and one cold run is made if
      they add up to none. */
  predicate CountsAs(now: Settings, own: Settings) {
    var cold := if own.coldRuns.Some? then own.coldRuns.value else 0;
    var warm := if own.warmRuns.Some? then own.warmRuns.value else 0;
    if cold + warm > 0 then now.coldRuns == Some(cold) && now.warmRuns == Some(warm)
    else now.coldRuns == Some(1) && now.warmRuns == Some(0)
  }

  // ---------------------------------------------------------------- the stage

  class Client {
    var catalog: string
    var schema: string
    var timeZone: string
    var params: map<string, string>

    constructor (catalog: string, schema: string, timeZone: string, params: map<string, string>)
      ensures this.catalog == catalog && this.schema == schema && this.timeZone == timeZone && this.params == params
    {
      this.catalog, this.schema, this.timeZone, this.params := catalog, schema, timeZone, params;
    }
  }

  class Stage {
    const startOnNewClient: bool
    var settings: Settings
    var client: Option<Client>
    var propagated: bool // propagateOnce
    var currentCatalog: string
    var currentSchema: string
    var currentTimeZone: string

    constructor (settings: Settings, startOnNewClient: bool)
      ensures this.settings == settings && this.startOnNewClient == startOnNewClient && client == None && !propagated
    {
      this.settings, this.startOnNewClient := settings, startOnNewClient;
      client, propagated, currentCatalog, currentSchema, currentTimeZone := None, false, "", "", "";
    }

    method SetDefaults()
      modifies this`settings
      ensures settings == WithDefaults(old(settings)) && Complete(settings) && CountsAs(settings, old(settings))
    {
      SetFlagDefaults();
      SetCountDefaults();
    }

    method SetFlagDefaults()
      modifies this`settings
      ensures settings == WithDefaults(old(settings))
              .(coldRuns := old(settings.coldRuns), warmRuns := old(settings.warmRuns))
    {
      var s := settings;
      if s.randomExecution == None {
        s := s.(randomExecution := Some(false));
      }
      if s.noRandomDuplicates == None {
        s := s.(noRandomDuplicates := Some(false));
      }
      if s.abortOnError == None {
        s := s.(abortOnError := Some(false));
      }
      if s.saveOutput == None {
        s := s.(saveOutput := Some(false));
      }
      if s.saveColumnMetadata == None {
        s := s.(saveColumnMetadata := Some(false));
      }
      if s.saveJson == None {
        s := s.(saveJson := Some(false));
      }
      settings := s;
    }

    method SetCountDefaults()
      modifies this`settings
      ensures settings == old(settings).(coldRuns := WithDefaults(old(settings)).coldRuns,
                                         warmRuns := WithDefaults(old(settings)).warmRuns)
    {
      if settings.coldRuns == None {
        settings := settings.(coldRuns := Some(0));
      }
      if settings.warmRuns == None {
        settings := settings.(warmRuns := Some(0));
      }
      if settings.coldRuns.value + settings.warmRuns.value <= 0 {
        settings := settings.(coldRuns := Some(1), warmRuns := Some(0));
      }
    }

    /** The function of propagateOnce.Do for one child. */
    method PropagateOnce(child: Stage)
      requires child != this && Complete(settings)
      modifies child
      ensures child.propagated && Untouched(child)
      ensures if old(child.propagated) then child.settings == old(child.settings) && child.client == old(child.client)
              else child.settings == Inherit(old(child.settings), settings) && child.client == client
      ensures !old(child.propagated) ==>
                if SetsCount(old(child.settings)) then CountsAs(child.settings, old(child.settings))
                else child.settings.coldRuns == settings.coldRuns && child.settings.warmRuns == settings.warmRuns
    {
      if child.propagated {
        return;
      }
      child.propagated := true;
      InheritPlace(child);
      InheritParameters(child);
      InheritRunCounts(child);
      InheritFlags(child);
      child.client := client;
    }

    method InheritPlace(child: Stage)
      requires child != this
      modifies child`settings
      ensures child.settings == old(child.settings).(
                catalog := Or(old(child.settings).catalog, settings.catalog),
                schema := Or(old(child.settings).schema, settings.schema),
                timeZone := Or(old(child.settings).timeZone, settings.timeZone))
    {
      var s := child.settings;
      if s.catalog == None {
        s := s.(catalog := settings.catalog);
      }
      if s.schema == None {
        s := s.(schema := settings.schema);
      }
      if s.timeZone == None {
        s := s.(timeZone := settings.timeZone);
      }
      child.settings := s;
    }

    method InheritFlags(child: Stage)
      requires child != this
      modifies child`settings
      ensures child.settings == old(child.settings).(
                randomExecution := Or(old(child.settings).randomExecution, settings.randomExecution),
                randomlyExecuteUntil := Or(old(child.settings).randomlyExecuteUntil, settings.randomlyExecuteUntil),
                noRandomDuplicates := Or(old(child.settings).noRandomDuplicates, settings.noRandomDuplicates),
                abortOnError := Or(old(child.settings).abortOnError, settings.abortOnError),
                saveOutput := Or(old(child.settings).saveOutput, settings.saveOutput),
                saveColumnMetadata := Or(old(child.settings).saveColumnMetadata, settings.saveColumnMetadata),
                saveJson := Or(old(child.settings).saveJson, settings.saveJson))
    {
      var s := child.settings;
      if s.randomExecution == None {
        s := s.(randomExecution := settings.randomExecution);
      }
      if s.randomlyExecuteUntil == None {
        s := s.(randomlyExecuteUntil := settings.randomlyExecuteUntil);
      }
      if s.noRandomDuplicates == None {
        s := s.(noRandomDuplicates := settings.noRandomDuplicates);
      }
      if s.abortOnError == None {
        s := s.(abortOnError := settings.abortOnError);
      }
      if s.saveOutput == None {
        s := s.(saveOutput := settings.saveOutput);
      }
      if s.saveColumnMetadata == None {
        s := s.(saveColumnMetadata := settings.saveColumnMetadata);
      }
      if s.saveJson == None {
        s := s.(saveJson := settings.saveJson);
      }
      child.settings := s;
    }

    /** The parent's parameters in any order: those without a value or set in the child are passed over. */
    method InheritParameters(child: Stage)
      requires child != this
      modifies child`settings
      ensures child.settings == old(child.settings).(
                sessionParams := Some(InheritParams(old(child.settings).sessionParams, settings.sessionParams)))
    {
      var own: Params := if child.settings.sessionParams.Some? then child.settings.sessionParams.value else map[];
      var parent: Params := if settings.sessionParams.Some? then settings.sessionParams.value else map[];
      var params, todo := own, parent.Keys;
      while todo != {}
        invariant todo <= parent.Keys
        invariant params == (map k | k in parent.Keys - todo && parent[k].Some? :: parent[k]) + own
      {
        var k :| k in todo;
        if parent[k].Some? {
          if k !in params {
            params := params[k := parent[k]];
          }
        }
        todo := todo - {k};
      }
      assert params == InheritParams(child.settings.sessionParams, settings.sessionParams);
      child.settings := child.settings.(sessionParams := Some(params));
    }

    method InheritRunCounts(child: Stage)
      requires child != this && Complete(settings)
      modifies child`settings
      ensures var c := InheritCounts(CountsOf(old(child.settings)), CountsOf(settings));
              child.settings == old(child.settings).(coldRuns := c.cold, warmRuns := c.warm)
      ensures if SetsCount(old(child.settings)) then CountsAs(child.settings, old(child.settings))
              else child.settings.coldRuns == settings.coldRuns && child.settings.warmRuns == settings.warmRuns
    {
      var s := child.settings;
      if s.coldRuns == None && s.warmRuns == None {
        s := s.(coldRuns := settings.coldRuns, warmRuns := settings.warmRuns);
      } else if s.coldRuns == None {
        s := s.(coldRuns := Some(0));
      } else if s.warmRuns == None {
        s := s.(warmRuns := Some(0));
      }
      if s.coldRuns.value + s.warmRuns.value <= 0 {
        s := s.(coldRuns := Some(1), warmRuns := Some(0));
      }
      child.settings := s;
    }

    twostate predicate Untouched(child: Stage)
      reads child
    {
      && child.currentCatalog == old(child.currentCatalog) && child.currentSchema == old(child.currentSchema)
      && child.currentTimeZone == old(child.currentTimeZone)
    }

    /** Each child takes what it has left open from the first parent that gets here, and only once. */
    method PropagateStates(nextStages: seq<Stage>)
      requires this !in nextStages && Complete(settings)
      requires forall i, j :: 0 <= i < j < |nextStages| ==> nextStages[i] != nextStages[j]
      modifies nextStages
      ensures forall n :: n in nextStages ==> n.propagated
      ensures forall n :: n in nextStages && old(n.propagated) ==>
                n.settings == old(n.settings) && n.client == old(n.client)
      ensures forall n :: n in nextStages && !old(n.propagated) ==>
                n.settings == Inherit(old(n.settings), settings) && n.client == client
    {
      for i := 0 to |nextStages|
        invariant forall j :: i <= j < |nextStages| ==>
                    nextStages[j].propagated == old(nextStages[j].propagated)
                    && nextStages[j].settings == old(nextStages[j].settings)
                    && nextStages[j].client == old(nextStages[j].client)
        invariant forall j :: 0 <= j < i ==> nextStages[j].propagated
        invariant forall j :: 0 <= j < i && old(nextStages[j].propagated) ==>
                    nextStages[j].settings == old(nextStages[j].settings)
                    && nextStages[j].client == old(nextStages[j].client)
        invariant forall j :: 0 <= j < i && !old(nextStages[j].propagated) ==>
                    nextStages[j].settings == Inherit(old(nextStages[j].settings), settings)
                    && nextStages[j].client == client
      {
        PropagateOnce(nextStages[i]);
      }
    }

    ghost predicate Fits(c: Client)
      reads this, c
    {
      && (settings.catalog.Some? ==> settings.catalog.value == c.catalog)
      && (settings.schema.Some? ==> settings.schema.value == c.schema)
      && (settings.timeZone.Some? ==> settings.timeZone.value == c.timeZone)
    }

    /** The stage runs on the inherited client if it may and that client fits; else on a new one that is
        made to fit. A client in use is never changed, so that the stage has its own session parameters
        exactly if it gets a new client or the one it keeps has them already. */
    method PrepareClient(newClient: Client)
      requires client != Some(newClient)
      modifies this`client, this`currentCatalog, this`currentSchema, this`currentTimeZone, newClient
      ensures client.Some? && Fits(client.value)
      ensures currentCatalog == client.value.catalog && currentSchema == client.value.schema
              && currentTimeZone == client.value.timeZone
      ensures client == if old(client).Some? && !startOnNewClient && old(Fits(client.value))
                        then old(client) else Some(newClient)
      ensures ParamsSet(client.value)
              <==> (old(client).Some? && !startOnNewClient && old(Fits(client.value)) ==> old(ParamsSet(client.value)))
      ensures if client == old(client) then newClient.params == old(newClient.params)
              else newClient.params == old(newClient.params) + OwnParams(settings)
    {
      if client.Some? && !startOnNewClient {
        var needsNewClient := NeedsNewClient(client.value);
        if !needsNewClient {
          currentCatalog, currentSchema, currentTimeZone :=
            client.value.catalog, client.value.schema, client.value.timeZone;
          return;
        }
      }
      client := Some(newClient);
      SetUp(newClient);
    }

    method NeedsNewClient(c: Client) returns (needsNewClient: bool)
      ensures needsNewClient <==> !Fits(c)
    {
      needsNewClient := false;
      if settings.catalog.Some? && settings.catalog.value != c.catalog {
        needsNewClient := true;
      }
      if settings.schema.Some? && settings.schema.value != c.schema {
        needsNewClient := true;
      }
      if settings.timeZone.Some? && settings.timeZone.value != c.timeZone {
        needsNewClient := true;
      }
    }

    /** Makes a new client fit the stage; what the stage leaves open stays as the client has it. */
    method SetUp(c: Client)
      modifies this`currentCatalog, this`currentSchema, this`currentTimeZone, c
      ensures Fits(c) && currentCatalog == c.catalog && currentSchema == c.schema && currentTimeZone == c.timeZone
      ensures settings.catalog.None? ==> c.catalog == old(c.catalog)
      ensures settings.schema.None? ==> c.schema == old(c.schema)
      ensures settings.timeZone.None? ==> c.timeZone == old(c.timeZone)
      ensures c.params == old(c.params) + OwnParams(settings) && ParamsSet(c)
      ensures forall k :: k in c.params && !HasParam(settings, k) ==>
                k in old(c.params) && c.params[k] == old(c.params)[k]
      ensures forall k :: k in old(c.params) ==> k in c.params
    {
      if settings.catalog.Some? {
        c.catalog := settings.catalog.value;
      }
      currentCatalog := c.catalog;
      if settings.schema.Some? {
        c.schema := settings.schema.value;
      }
      currentSchema := c.schema;
      SetParams(c);
      if settings.timeZone.Some? {
        c.timeZone := settings.timeZone.value;
      }
      currentTimeZone := c.timeZone;
    }

    /** In any order: the stage's parameters over those of the client. */
    method SetParams(c: Client)
      modifies c`params
      ensures c.params == old(c.params) + OwnParams(settings)
    {
      var own: Params := if settings.sessionParams.Some? then settings.sessionParams.value else map[];
      var todo := own.Keys;
      while todo != {}
        invariant todo <= own.Keys
        invariant c.params == old(c.params) + map k | k in own.Keys - todo && own[k].Some? :: own[k].value
      {
        var k :| k in todo;
        if own[k].Some? {
          c.params := c.params[k := own[k].value];
        }
        todo := todo - {k};
      }
    }

    /** The client has every session parameter of the stage that has a value. */
    ghost predicate ParamsSet(c: Client)
      reads this, c
    {
      settings.sessionParams.Some? ==>
        var own := settings.sessionParams.value;
        forall k :: k in own && own[k].Some? ==> k in c.params && c.params[k] == own[k].value
    }
  }

  /** A parent that sets nothing, and a child that sets a session parameter: the child goes on with
      the parent's client, which does not have it. */
  method LostParameterExample(first: Client, second: Client) returns (child: Stage)
    requires first != second && first.params == map[]
    modifies first, second
    ensures child.settings.sessionParams == Some(map["query_priority" := Some("2")])
    ensures child.client == Some(first) && first.params == map[] && !child.ParamsSet(first)
  {
    var open := Settings(None, None, None, None, None, None, None, None, None, None, None, None, None);
    var own: Params := map["query_priority" := Some("2")];
    var parent := new Stage(open, false);
    child := new Stage(open.(sessionParams := Some(own)), false);
    parent.SetDefaults();
    parent.PrepareClient(first);
    parent.PropagateOnce(child);
    assert InheritParams(Some(own), None) == own;
    child.SetDefaults();
    child.PrepareClient(second);
    assert "query_priority" in own;
  }

  // ---------------------------------------------------------------- what inheritance keeps

  /** What a stage has set itself is kept, apart from its run counts. */
  lemma OwnSettingsKept(own: Settings, parent: Settings)
    ensures var now := Inherit(own, parent);
            && Kept(own.catalog, now.catalog) && Kept(own.schema, now.schema) && Kept(own.timeZone, now.timeZone)
            && Kept(own.randomExecution, now.randomExecution) && Kept(own.noRandomDuplicates, now.noRandomDuplicates)
            && Kept(own.randomlyExecuteUntil, now.randomlyExecuteUntil) && Kept(own.abortOnError, now.abortOnError)
            && Kept(own.saveOutput, now.saveOutput) && Kept(own.saveColumnMetadata, now.saveColumnMetadata)
            && Kept(own.saveJson, now.saveJson)
            && (own.sessionParams.Some? ==>
                  forall k :: k in own.sessionParams.value ==>
                    k in now.sessionParams.value && now.sessionParams.value[k] == own.sessionParams.value[k])
  {
  }

  /** The run counts that a stage has set itself are kept exactly if they add up to a run. */
  lemma OwnCountsKeptExactly(own: Settings, parent: Settings)
    requires Complete(parent) && (own.coldRuns.Some? || own.warmRuns.Some?)
    ensures var now := Inherit(own, parent);
            Kept(own.coldRuns, now.coldRuns) && Kept(own.warmRuns, now.warmRuns)
            <==> OrZero(own.coldRuns) + OrZero(own.warmRuns) > 0
                 || (Kept(own.coldRuns, Some(1)) && Kept(own.warmRuns, Some(0)))
  {
  }

  /** A stage that has inherited from a complete one is complete, and defaults then change nothing. */
  lemma InheritedIsComplete(own: Settings, parent: Settings)
    requires Complete(parent)
    ensures Complete(Inherit(own, parent))
    ensures WithDefaults(Inherit(own, parent)) == Inherit(own, parent)
  {
  }

  /** What a stage runs with for session parameter k: its own setting, or else the parent's value. */
  lemma ParamInherited(own: Settings, parent: Settings, k: string)
    ensures var now := Inherit(own, parent).sessionParams.value;
            if own.sessionParams.Some? && k in own.sessionParams.value
            then k in now && now[k] == own.sessionParams.value[k]
            else if parent.sessionParams.Some? && k in parent.sessionParams.value && parent.sessionParams.value[k].Some?
            then k in now && now[k] == parent.sessionParams.value[k]
            else k !in now
  {
  }

  /** A stage that leaves both run counts open runs as often as its parent, cold and warm. */
  lemma OpenCountsInherited(own: Settings, parent: Settings)
    requires Complete(parent) && own.coldRuns.None? && own.warmRuns.None?
    ensures Inherit(own, parent).coldRuns == parent.coldRuns && Inherit(own, parent).warmRuns == parent.warmRuns
  {
  }

  // ---------------------------------------------------------------- a chain of stages

  /** What the last stage of a chain runs with, when each stage inherits from the one before it. */
  function Effective(chain: seq<Settings>): Settings
    requires chain != []
  {
    if |chain| == 1 then WithDefaults(chain[0])
    else Inherit(chain[|chain| - 1], Effective(chain[..|chain| - 1]))
  }

  /** Stage i sets the field, and no later one does. */
  predicate SetLastAt<T>(chain: seq<Settings>, field: Settings -> Option<T>, i: nat) {
    i < |chain| && field(chain[i]).Some? && forall j :: i < j < |chain| ==> field(chain[j]).None?
  }

  /** A field that passes through inheritance and defaults unless it is open. */
  ghost predicate Passes<T(!new)>(field: Settings -> Option<T>, default: Option<T>) {
    && (forall own, parent {:trigger Inherit(own, parent)} ::
          field(Inherit(own, parent)) == Or(field(own), field(parent)))
    && (forall s {:trigger WithDefaults(s)} :: field(WithDefaults(s)) == Or(field(s), default))
  }

  /** Along every chain the nearest stage that sets a field decides it, ... */
  lemma {:induction false} NearestWins<T(!new)>(chain: seq<Settings>, field: Settings -> Option<T>, default: Option<T>,
                                    i: nat)
    requires Passes(field, default) && SetLastAt(chain, field, i)
    ensures field(Effective(chain)) == field(chain[i])
  {
    EffectiveField(chain, field, default);
    if i < |chain| - 1 {
      var before := chain[..|chain| - 1];
      assert SetLastAt(before, field, i);
      NearestWins(before, field, default, i);
    }
  }

  /** ... and the default only if none does. */
  lemma {:induction false} DefaultWins<T(!new)>(chain: seq<Settings>, field: Settings -> Option<T>, default: Option<T>)
    requires Passes(field, default) && chain != [] && AllOpen(chain, field)
    ensures field(Effective(chain)) == default
  {
    EffectiveField(chain, field, default);
    assert field(chain[|chain| - 1]).None?;
    if |chain| > 1 {
      var before := chain[..|chain| - 1];
      assert forall i :: 0 <= i < |before| ==> before[i] == chain[i];
      assert AllOpen(before, field);
      DefaultWins(before, field, default);
    }
  }

  predicate AllOpen<T>(chain: seq<Settings>, field: Settings -> Option<T>) {
    forall i :: 0 <= i < |chain| ==> field(chain[i]).None?
  }

  lemma EffectiveField<T(!new)>(chain: seq<Settings>, field: Settings -> Option<T>, default: Option<T>)
    requires Passes(field, default) && chain != []
    ensures field(Effective(chain))
            == Or(field(chain[|chain| - 1]), if |chain| == 1 then default else field(Effective(chain[..|chain| - 1])))
  {
  }

  /** The fields this holds for. */
  lemma FieldsPass()
    ensures Passes((s: Settings) => s.catalog, None) && Passes((s: Settings) => s.schema, None)
    ensures Passes((s: Settings) => s.timeZone, None) && Passes((s: Settings) => s.randomlyExecuteUntil, None)
    ensures Passes((s: Settings) => s.abortOnError, Some(false)) && Passes((s: Settings) => s.saveJson, Some(false))
    ensures Passes((s: Settings) => s.saveOutput, Some(false))
    ensures Passes((s: Settings) => s.saveColumnMetadata, Some(false))
    ensures Passes((s: Settings) => s.randomExecution, Some(false))
    ensures Passes((s: Settings) => s.noRandomDuplicates, Some(false))
  {
  }

  /** Along every chain the nearest stage that sets either run count decides both, ... */
  lemma {:induction false} NearestCounts(chain: seq<Settings>, i: nat)
    requires i < |chain| && SetsCount(chain[i]) && forall j :: i < j < |chain| ==> !SetsCount(chain[j])
    ensures CountsAs(Effective(chain), chain[i])
  {
    if i < |chain| - 1 {
      var before := chain[..|chain| - 1];
      assert before[i] == chain[i] && forall j :: i < j < |before| ==> before[j] == chain[j];
      NearestCounts(before, i);
      ChainIsComplete(before);
      assert !SetsCount(chain[|chain| - 1]);
      OpenCountsInherited(chain[|chain| - 1], Effective(before));
    }
  }

  /** ... and where none does, one cold run is made and no warm one. */
  lemma {:induction false} DefaultCounts(chain: seq<Settings>)
    requires chain != [] && forall j :: 0 <= j < |chain| ==> !SetsCount(chain[j])
    ensures Effective(chain).coldRuns == Some(1) && Effective(chain).warmRuns == Some(0)
  {
    assert !SetsCount(chain[|chain| - 1]);
    if |chain| > 1 {
      var before := chain[..|chain| - 1];
      assert forall j :: 0 <= j < |before| ==> before[j] == chain[j];
      DefaultCounts(before);
      ChainIsComplete(before);
      OpenCountsInherited(chain[|chain| - 1], Effective(before));
    }
  }

  /** Along every chain each stage makes at least one run. */
  lemma {:induction false} ChainIsComplete(chain: seq<Settings>)
    requires chain != []
    ensures Complete(Effective(chain))
  {
    if |chain| > 1 {
      ChainIsComplete(chain[..|chain| - 1]);
      InheritedIsComplete(chain[|chain| - 1], Effective(chain[..|chain| - 1]));
    }
  }
}
