/**
 * The two-step delete confirmation of src/tools/DeleteFromLPG.py. A
 * module-level dictionary of pending keys is shared by
 * `delete_person_from_group` and `delete_face_from_group`: the first call
 * for a key only marks it pending and warns, a later call with the confirm
 * word removes the key and asks the service to delete, any other call is
 * refused and changes nothing.
 *
 * `Step` is the transition on the dictionary; the class `PendingDeletes`
 * holds the dictionary and its two tool methods update it in place. The
 * trace lemmas at the end follow a sequence of calls from the empty
 * dictionary.
 */
module DeleteConfirm {
  import opened Wrappers

  /** The word a caller must pass as `confirm_text` to go ahead. */
  const ConfirmWord := "YES_DELETE"

  /** What a call does with its key. */
  datatype Action = Warn | Refuse | Delete

  /**
   * A tool's answer: the `{"status", "message"}` dictionary of the two
   * confirmation steps, or the joined text of a deletion attempt.
   */
  datatype Reply = Status(status: string, message: string) | Report(text: string)

  /** The pending key of a person: `f"{group_uuid}:{person_id}"`. */
  function PersonKey(groupUuid: string, personId: string): string
  {
    groupUuid + ":" + personId
  }

  /** The pending key of a face: `f"{group_uuid}:{person_id}:{face_id}"`. */
  function FaceKey(groupUuid: string, personId: string, faceId: string): string
  {
    groupUuid + ":" + personId + ":" + faceId
  }

  /**
   * One call with key `key`: an absent key (`get(key) is None`) is made
   * pending and warned about, whatever `confirmText` is; a pending key with
   * the wrong word is refused and nothing changes; a pending key with the
   * confirm word is removed and deleted.
   */
  function Step(pending: map<string, bool>, key: string, confirmText: string): (map<string, bool>, Action)
  {
    if key !in pending then (pending[key := true], Warn)
    else if confirmText != ConfirmWord then (pending, Refuse)
    else (pending - {key}, Delete)
  }

  /** Every pending entry holds `True`. */
  predicate AllTrue(pending: map<string, bool>)
  {
    forall k :: k in pending ==> pending[k]
  }

  /**
   * What a step does, read from its outcome: it deletes exactly when the
   * key was pending and the word matches, warns exactly when the key was
   * absent, leaves the key pending unless it deleted, keeps every other
   * entry, and keeps all entries `True`.
   */
  lemma StepSpec(pending: map<string, bool>, key: string, confirmText: string)
    ensures var (next, act) := Step(pending, key, confirmText);
      (act == Delete <==> key in pending && confirmText == ConfirmWord)
      && (act == Warn <==> key !in pending)
      && (key in next <==> act != Delete)
      && (act == Refuse ==> next == pending)
      && (forall k :: k != key ==> (k in next <==> k in pending))
      && (forall k :: k != key && k in pending ==> next[k] == pending[k])
      && (AllTrue(pending) ==> AllTrue(next))
  {
  }

  /** The warning of `delete_person_from_group`, with the instruction to confirm. */
  function PersonWarning(personId: string, groupUuid: string): string
  {
    "This will delete person (ID: " + personId + ") from large person group (Group ID: " + groupUuid + "). "
    + "Double confirm by calling again to proceed."
    + " To proceed, call again with confirm_text='" + ConfirmWord + "'."
  }

  /** The refusal of `delete_person_from_group`. */
  function PersonRefusal(personId: string, groupUuid: string): string
  {
    "You must type confirm_text='" + ConfirmWord + "' to delete person " + personId + " from group " + groupUuid + "."
  }

  /** The report of a person deletion; `serviceError` is the exception text, if the service raised. */
  function PersonReport(personId: string, groupUuid: string, serviceError: Option<string>): string
  {
    match serviceError
    case None => "Deleted person with ID: " + personId + " from group: " + groupUuid
    case Some(e) => "Failed to delete person with ID: " + personId + " from group: " + groupUuid + ". Error: " + e
  }

  /** The warning of `delete_face_from_group`, with the instruction to confirm. */
  function FaceWarning(faceId: string, personId: string, groupUuid: string): string
  {
    "This will permanently delete the face (Face ID: " + faceId + ") from person (Person ID: " + personId
    + ") in the large person group (Group ID: " + groupUuid + "). "
    + "Double confirm by calling again to proceed."
    + " To proceed, call again with confirm_text='" + ConfirmWord + "'."
  }

  /** The refusal of `delete_face_from_group`. */
  function FaceRefusal(faceId: string, personId: string, groupUuid: string): string
  {
    "You must type confirm_text='" + ConfirmWord + "' to delete face " + faceId + " of person " + personId
    + " in group " + groupUuid + "."
  }

  /** The report of a face deletion; `serviceError` is the exception text, if the service raised. */
  function FaceReport(faceId: string, personId: string, groupUuid: string, serviceError: Option<string>): string
  {
    match serviceError
    case None => "Deleted face with ID: " + faceId + " from person ID: " + personId + " in group: " + groupUuid
    case Some(e) =>
      "Failed to delete face with ID: " + faceId + " from person ID: " + personId + " in group: " + groupUuid
      + ". Error: " + e
  }

  /** `_PENDING_DELETES` and the two delete tools that share it. */
  class PendingDeletes {
    var pending: map<string, bool>

    predicate Valid()
      reads this
    {
      AllTrue(pending)
    }

    /** The dictionary as the module starts: empty. */
    constructor()
      ensures Valid() && pending == map[]
    {
      pending := map[];
    }

    /**
     * `delete_person_from_group`. The dictionary moves by `Step` on the
     * person key; `attempted` says whether the service was asked to delete,
     * and `serviceError` is what it raised, if anything (a failure is
     * reported, not raised).
     */
    method DeletePerson(personId: string, groupUuid: string, confirmText: string, serviceError: Option<string>)
      returns (reply: Reply, attempted: bool)
      requires Valid()
      modifies this
      ensures Valid()
      ensures (pending, if attempted then Delete else if reply.Status? && reply.status == "needs_confirmation" then Warn else Refuse)
              == Step(old(pending), PersonKey(groupUuid, personId), confirmText)
      ensures PersonKey(groupUuid, personId) !in old(pending) ==>
                reply == Status("needs_confirmation", PersonWarning(personId, groupUuid))
      ensures PersonKey(groupUuid, personId) in old(pending) && confirmText != ConfirmWord ==>
                reply == Status("confirmation_required", PersonRefusal(personId, groupUuid))
      ensures attempted <==> PersonKey(groupUuid, personId) in old(pending) && confirmText == ConfirmWord
      ensures attempted ==> reply == Report(PersonReport(personId, groupUuid, serviceError))
    {
      var key := PersonKey(groupUuid, personId);
      if key !in pending {
        pending := pending[key := true];
        return Status("needs_confirmation", PersonWarning(personId, groupUuid)), false;
      }
      if confirmText != ConfirmWord {
        return Status("confirmation_required", PersonRefusal(personId, groupUuid)), false;
      }
      pending := pending - {key};
      var lines := [PersonReport(personId, groupUuid, serviceError)];
      return Report(lines[0]), true;
    }

    /**
     * `delete_face_from_group`: the same protocol on the face key.
     */
    method DeleteFace(faceId: string, personId: string, groupUuid: string, confirmText: string,
                      serviceError: Option<string>)
      returns (reply: Reply, attempted: bool)
      requires Valid()
      modifies this
      ensures Valid()
      ensures (pending, if attempted then Delete else if reply.Status? && reply.status == "needs_confirmation" then Warn else Refuse)
              == Step(old(pending), FaceKey(groupUuid, personId, faceId), confirmText)
      ensures FaceKey(groupUuid, personId, faceId) !in old(pending) ==>
                reply == Status("needs_confirmation", FaceWarning(faceId, personId, groupUuid))
      ensures FaceKey(groupUuid, personId, faceId) in old(pending) && confirmText != ConfirmWord ==>
                reply == Status("confirmation_required", FaceRefusal(faceId, personId, groupUuid))
      ensures attempted <==> FaceKey(groupUuid, personId, faceId) in old(pending) && confirmText == ConfirmWord
      ensures attempted ==> reply == Report(FaceReport(faceId, personId, groupUuid, serviceError))
    {
      var key := FaceKey(groupUuid, personId, faceId);
      if key !in pending {
        pending := pending[key := true];
        return Status("needs_confirmation", FaceWarning(faceId, personId, groupUuid)), false;
      }
      if confirmText != ConfirmWord {
        return Status("confirmation_required", FaceRefusal(faceId, personId, groupUuid)), false;
      }
      pending := pending - {key};
      var lines := [FaceReport(faceId, personId, groupUuid, serviceError)];
      return Report(lines[0]), true;
    }
  }

  // ---------------------------------------------------------------- keys

  /** With colon-free ids, the only colon of a person key is the one after the group id. */
  lemma OnlyColon(groupUuid: string, personId: string)
    requires ':' !in groupUuid && ':' !in personId
    ensures var k := PersonKey(groupUuid, personId);
      k[|groupUuid|] == ':' && forall i :: 0 <= i < |k| && k[i] == ':' ==> i == |groupUuid|
  {
    var k := PersonKey(groupUuid, personId);
    forall i | 0 <= i < |k| && i != |groupUuid| ensures k[i] != ':' {
      if i < |groupUuid| {
        assert k[i] == groupUuid[i];
      } else {
        assert k[i] == personId[i - |groupUuid| - 1];
      }
    }
  }

  /** Person keys are distinct for distinct pairs of colon-free group id and person id. */
  lemma PersonKeyInjective(g1: string, p1: string, g2: string, p2: string)
    requires ':' !in g1 && ':' !in g2
    requires PersonKey(g1, p1) == PersonKey(g2, p2)
    ensures g1 == g2 && p1 == p2
  {
    var k := PersonKey(g1, p1);
    forall i | 0 <= i < |g1| ensures k[i] != ':' {
      assert k[i] == g1[i];
    }
    forall i | 0 <= i < |g2| ensures k[i] != ':' {
      assert k[i] == g2[i];
    }
    assert k[|g1|] == ':' && k[|g2|] == ':';
    assert |g1| == |g2|;
    assert g1 == k[..|g1|] && g2 == k[..|g2|];
    assert p1 == k[|g1| + 1..] && p2 == k[|g2| + 1..];
  }

  /** With colon-free ids a person key is never a face key. */
  lemma PersonAndFaceKeysDiffer(g1: string, p1: string, g2: string, p2: string, f2: string)
    requires ':' !in g1 && ':' !in p1
    ensures PersonKey(g1, p1) != FaceKey(g2, p2, f2)
  {
    OnlyColon(g1, p1);
    var fk := FaceKey(g2, p2, f2);
    assert fk[|g2|] == ':' && fk[|g2| + 1 + |p2|] == ':';
  }

  /**
   * The keys are not separated when an id itself holds a colon: the warning
   * for person "p:f" of group "g" makes the face "f" of person "p" pending.
   */
  lemma KeysCollideOnColon()
    ensures PersonKey("g", "p:f") == FaceKey("g", "p", "f")
    ensures Step(Step(map[], PersonKey("g", "p:f"), "").0, FaceKey("g", "p", "f"), ConfirmWord).1 == Delete
  {
  }

  // ---------------------------------------------------------------- traces

  /** One call of either tool, by the key it uses and the word it passes. */
  datatype Call = Call(key: string, confirmText: string)

  /** The dictionary after the first `j` calls, starting from the empty one. */
  function State(calls: seq<Call>, j: nat): map<string, bool>
    requires j <= |calls|
  {
    if j == 0 then map[] else Step(State(calls, j - 1), calls[j - 1].key, calls[j - 1].confirmText).0
  }

  /** What call `j` does. */
  function ActionAt(calls: seq<Call>, j: nat): Action
    requires j < |calls|
  {
    Step(State(calls, j), calls[j].key, calls[j].confirmText).1
  }

  /** A key that no call in `[a, b)` uses keeps its presence from `a` to `b`. */
  lemma {:induction false} Untouched(calls: seq<Call>, a: nat, b: nat, key: string)
    requires a <= b <= |calls|
    requires forall m :: a <= m < b ==> calls[m].key != key
    ensures key in State(calls, b) <==> key in State(calls, a)
    decreases b - a
  {
    if a < b {
      Untouched(calls, a, b - 1, key);
      StepSpec(State(calls, b - 1), calls[b - 1].key, calls[b - 1].confirmText);
    }
  }

  /**
   * A pending key was made pending by an earlier warning for it, and every
   * later call for it so far was refused.
   */
  lemma {:induction false} PendingHasWarning(calls: seq<Call>, j: nat, key: string)
    requires j <= |calls| && key in State(calls, j)
    ensures exists i :: 0 <= i < j && calls[i].key == key && ActionAt(calls, i) == Warn
              && forall m :: i < m < j && calls[m].key == key ==> ActionAt(calls, m) == Refuse
  {
    var c := calls[j - 1];
    StepSpec(State(calls, j - 1), c.key, c.confirmText);
    if c.key == key && ActionAt(calls, j - 1) == Warn {
      assert calls[j - 1].key == key && ActionAt(calls, j - 1) == Warn;
    } else {
      PendingHasWarning(calls, j - 1, key);
      var i :| 0 <= i < j - 1 && calls[i].key == key && ActionAt(calls, i) == Warn
               && forall m :: i < m < j - 1 && calls[m].key == key ==> ActionAt(calls, m) == Refuse;
      assert forall m :: i < m < j && calls[m].key == key ==> ActionAt(calls, m) == Refuse;
    }
  }

  /**
   * Deletion only happens for a key that an earlier call warned about, with
   * no deletion of that key in between: every call for it since the warning
   * was refused.
   */
  lemma DeleteFollowsWarning(calls: seq<Call>, j: nat)
    requires j < |calls| && ActionAt(calls, j) == Delete
    ensures exists i :: 0 <= i < j && calls[i].key == calls[j].key && ActionAt(calls, i) == Warn
              && forall m :: i < m < j && calls[m].key == calls[j].key ==> ActionAt(calls, m) == Refuse
  {
    StepSpec(State(calls, j), calls[j].key, calls[j].confirmText);
    PendingHasWarning(calls, j, calls[j].key);
  }

  /** After a deletion, the next call for the same key warns again, whatever its word. */
  lemma WarnAfterDelete(calls: seq<Call>, j: nat, k: nat)
    requires j < k < |calls| && ActionAt(calls, j) == Delete && calls[k].key == calls[j].key
    requires forall m :: j < m < k ==> calls[m].key != calls[j].key
    ensures ActionAt(calls, k) == Warn
  {
    StepSpec(State(calls, j), calls[j].key, calls[j].confirmText);
    Untouched(calls, j + 1, k, calls[j].key);
    StepSpec(State(calls, k), calls[k].key, calls[k].confirmText);
  }

  /** The first call for a key warns even when it already carries the confirm word. */
  lemma FirstCallWarns(calls: seq<Call>, k: nat)
    requires k < |calls|
    requires forall m :: 0 <= m < k ==> calls[m].key != calls[k].key
    ensures ActionAt(calls, k) == Warn
  {
    Untouched(calls, 0, k, calls[k].key);
    StepSpec(State(calls, k), calls[k].key, calls[k].confirmText);
  }
}
