/**
 * Feedback values and the per-trigger feedback store.
 *
 * A feedback says what one control should show. Only the parts the
 * Stream Deck layer inspects are modelled: the tally bits, the list of
 * style class names and the resolved style. The kind-specific payload
 * (text, colour, image reference) is carried along uninterpreted.
 */
module Feedback {
  import opened Wrappers

  /** The four tally flags, as independent bits (all false when no tally is set). */
  datatype Tally = Tally(active: bool, next: bool, other: bool, present: bool)

  const NoTally := Tally(false, false, false, false)

  /** A configured style preset; `definition` stands for the style it carries. */
  datatype StylePreset = StylePreset(id: string, definition: string)

  datatype Feedback = Feedback(
    tally: Tally,
    styleClassNames: Option<seq<string>>,
    style: Option<StylePreset>,
    content: string)

  // Action names used as slots in the store. The symbol table of the
  // repository is not part of this model: the spellings below are
  // assumed, and the model relies only on their being distinct.
  const DOWN := "Down"
  const UP := "Up"
  const JOG := "Jog"
  const MOVE := "Move"
  const SHUTTLE := "Shuttle"
  const T_BAR := "T-Bar"

  /** Display precedence of the actions of one trigger. */
  const ACTION_PRIORITIES: seq<string> := [DOWN, UP, JOG, MOVE, SHUTTLE, T_BAR]

  /**
   * The feedback store: trigger id -> action -> feedback (`None` is the
   * JavaScript `null` feedback). Every id present holds at least one slot.
   */
  type Store = map<string, map<string, Option<Feedback>>>

  const EmptyStore: Store := map[]

  /** `FeedbackStore.set`: fill or overwrite the slot (id, action). */
  function StoreSet(s: Store, id: string, action: string, fb: Option<Feedback>): Store {
    var slots := if id in s then s[id] else map[];
    s[id := slots[action := fb]]
  }

  /**
   * Setting a slot fills exactly that slot: every other slot of the id and
   * every other id keep what they held.
   */
  lemma StoreSetSlots(s: Store, id: string, action: string, fb: Option<Feedback>)
    ensures var r := StoreSet(s, id, action, fb);
            r.Keys == s.Keys + {id} &&
            action in r[id] && r[id][action] == fb &&
            (forall a :: a in r[id] && a != action ==> id in s && a in s[id] && r[id][a] == s[id][a]) &&
            (id in s ==> r[id].Keys == s[id].Keys + {action}) &&
            (forall other :: other in s && other != id ==> r[other] == s[other])
  {
  }

  /**
   * `FeedbackStore.get(id, priorities)`. The store's own code is not part
   * of this model; its semantics are ASSUMED here: the feedback in the
   * slot of the first action in `priorities` that has a slot for `id`,
   * and no feedback when none has.
   */
  function StoreGet(s: Store, id: string, priorities: seq<string>): (r: Option<Feedback>)
    ensures id !in s ==> r == None
  {
    if id !in s || priorities == [] then None
    else if priorities[0] in s[id] then s[id][priorities[0]]
    else StoreGet(s, id, priorities[1..])
  }

  /**
   * `FeedbackStore.allFeedbackIds()`: every id holding a slot, each once,
   * in an order the model leaves open.
   */
  method AllFeedbackIds(s: Store) returns (ids: seq<string>)
    ensures Distinct(ids)
    ensures forall id :: id in ids <==> id in s
  {
    ids := Enumerate(s.Keys);
  }

  /**
   * Priority resolution: the slot of an earlier action wins over every
   * later one, whatever else the trigger holds.
   */
  lemma {:induction false} GetFindsFirstSlot(s: Store, id: string, priorities: seq<string>, k: nat)
    requires id in s && k < |priorities| && priorities[k] in s[id]
    requires forall j :: 0 <= j < k ==> priorities[j] !in s[id]
    ensures StoreGet(s, id, priorities) == s[id][priorities[k]]
  {
    if k > 0 {
      GetFindsFirstSlot(s, id, priorities[1..], k - 1);
    }
  }

  /** No slot for any of the priorities means no feedback. */
  lemma {:induction false} GetWithoutSlots(s: Store, id: string, priorities: seq<string>)
    requires forall j :: 0 <= j < |priorities| ==> id !in s || priorities[j] !in s[id]
    ensures StoreGet(s, id, priorities) == None
  {
    if id in s && priorities != [] {
      GetWithoutSlots(s, id, priorities[1..]);
    }
  }

  /** Setting two different slots commutes: the store does not remember insertion order. */
  lemma SetCommutes(s: Store, id: string, a: string, fa: Option<Feedback>, b: string, fb: Option<Feedback>)
    requires a != b
    ensures StoreSet(StoreSet(s, id, a, fa), id, b, fb) == StoreSet(StoreSet(s, id, b, fb), id, a, fa)
  {
    var slots := if id in s then s[id] else map[];
    var ab, ba := slots[a := fa][b := fb], slots[b := fb][a := fa];
    assert ab == ba;
    var sa, sb := s[id := slots[a := fa]], s[id := slots[b := fb]];
    assert StoreSet(sa, id, b, fb) == s[id := ab] by {
      assert sa[id := ab] == s[id := ab];
    }
    assert StoreSet(sb, id, a, fa) == s[id := ba] by {
      assert sb[id := ba] == s[id := ba];
    }
  }

  /**
   * With feedback set for DOWN and for UP on one trigger, in either
   * order, the DOWN feedback is the one shown.
   */
  lemma DownShownOverUp(s: Store, id: string, fd: Option<Feedback>, fu: Option<Feedback>)
    ensures StoreGet(StoreSet(StoreSet(s, id, UP, fu), id, DOWN, fd), id, ACTION_PRIORITIES) == fd
    ensures StoreGet(StoreSet(StoreSet(s, id, DOWN, fd), id, UP, fu), id, ACTION_PRIORITIES) == fd
  {
    StoreSetSlots(StoreSet(s, id, UP, fu), id, DOWN, fd);
    StoreSetSlots(StoreSet(s, id, DOWN, fd), id, UP, fu);
    GetFindsFirstSlot(StoreSet(StoreSet(s, id, UP, fu), id, DOWN, fd), id, ACTION_PRIORITIES, 0);
    GetFindsFirstSlot(StoreSet(StoreSet(s, id, DOWN, fd), id, UP, fu), id, ACTION_PRIORITIES, 0);
  }
}
