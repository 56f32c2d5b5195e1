/**
 * The conversion of an intents file into chat-format training records: one
 * record per pattern of every intent, in intent order and then pattern
 * order, holding the pattern as the user message and the intent's first
 * response as the assistant message. `intent["responses"][0]` raises
 * `IndexError` at the first pattern of an intent without responses; the
 * records written before that stay in the output file.
 */
module IntentsToChatml {

  /** One entry of `data["intents"]`. */
  datatype Intent = Intent(patterns: seq<string>, responses: seq<string>)

  datatype Message = Message(role: string, content: string)

  /** One output line, `{"messages": [...]}`. */
  datatype Record = Record(messages: seq<Message>)

  /** The record for one pattern of an intent. */
  function PatternRecord(pattern: string, response: string): (r: Record)
    ensures |r.messages| == 2
    ensures r.messages[0] == Message("user", pattern)
    ensures r.messages[1] == Message("assistant", response)
  {
    Record([Message("user", pattern), Message("assistant", response)])
  }

  /** The intent raises: it has a pattern but no response. */
  predicate Raises(intent: Intent)
  {
    intent.patterns != [] && intent.responses == []
  }

  /** The records of an intent that does not raise. */
  function IntentRecords(intent: Intent): (rs: seq<Record>)
    requires !Raises(intent)
    ensures |rs| == |intent.patterns|
    ensures forall j :: 0 <= j < |rs| ==> rs[j] == PatternRecord(intent.patterns[j], intent.responses[0])
  {
    seq(|intent.patterns|, j requires 0 <= j < |intent.patterns| =>
      PatternRecord(intent.patterns[j], intent.responses[0]))
  }

  /** The total number of patterns. */
  function PatternCount(intents: seq<Intent>): nat
  {
    if intents == [] then 0
    else PatternCount(intents[..|intents| - 1]) + |intents[|intents| - 1].patterns|
  }

  /** What the script leaves in the output file, and whether it raised. */
  function Conversion(intents: seq<Intent>): (r: (seq<Record>, bool))
    ensures r.1 <==> exists i :: 0 <= i < |intents| && Raises(intents[i])
    ensures !r.1 ==> |r.0| == PatternCount(intents)
  {
    if intents == [] then ([], false)
    else
      var front := intents[..|intents| - 1];
      var last := intents[|intents| - 1];
      var prev := Conversion(front);
      assert forall i :: 0 <= i < |front| ==> front[i] == intents[i];
      if prev.1 || Raises(last) then (prev.0, true)
      else (prev.0 + IntentRecords(last), false)
  }

  /** The script's loop over intents and patterns. */
  method ConvertIntents(intents: seq<Intent>) returns (records: seq<Record>, raised: bool)
    ensures (records, raised) == Conversion(intents)
  {
    records := [];
    for i := 0 to |intents|
      invariant (records, false) == Conversion(intents[..i])
    {
      var intent := intents[i];
      assert intents[..i + 1][..i] == intents[..i];
      assert intents[..i + 1][i] == intent;
      ghost var before := records;
      for j := 0 to |intent.patterns|
        invariant intent.responses != [] || j == 0
        invariant j == 0 ==> records == before
        invariant intent.responses != [] ==>
          records == before + IntentRecords(intent)[..j]
      {
        if intent.responses == [] {
          assert Raises(intent);
          assert forall k :: 0 <= k < i ==> !Raises(intents[k]) by {
            assert forall k :: 0 <= k < i ==> intents[..i][k] == intents[k];
          }
          RaisedKeepsEarlierRecords(intents, i);
          return records, true;
        }
        var messages := [Message("user", intent.patterns[j]), Message("assistant", intent.responses[0])];
        records := records + [Record(messages)];
        assert IntentRecords(intent)[..j + 1] == IntentRecords(intent)[..j] + [IntentRecords(intent)[j]];
      }
      assert !Raises(intent);
      assert IntentRecords(intent)[..|intent.patterns|] == IntentRecords(intent);
      assert records == before + IntentRecords(intent);
    }
    assert intents[..|intents|] == intents;
    raised := false;
  }

  /** Without a raise, the record at position `PatternCount(intents[..i]) + j`
      is the one for pattern `j` of intent `i`: intent order, then pattern
      order. */
  lemma {:induction false} RecordPosition(intents: seq<Intent>, i: nat, j: nat)
    requires !Conversion(intents).1
    requires i < |intents| && j < |intents[i].patterns|
    ensures PatternCount(intents[..i]) + j < |Conversion(intents).0|
    ensures Conversion(intents).0[PatternCount(intents[..i]) + j]
         == PatternRecord(intents[i].patterns[j], intents[i].responses[0])
    decreases |intents|
  {
    var front := intents[..|intents| - 1];
    var last := intents[|intents| - 1];
    assert Conversion(intents).0 == Conversion(front).0 + IntentRecords(last);
    if i == |intents| - 1 {
      assert intents[..i] == front;
      assert |Conversion(front).0| == PatternCount(front);
    } else {
      assert front[..i] == intents[..i];
      assert front[i] == intents[i];
      RecordPosition(front, i, j);
    }
  }

  /** After a raise the file holds exactly the records of the intents before
      the first one that raises. */
  lemma {:induction false} RaisedKeepsEarlierRecords(intents: seq<Intent>, k: nat)
    requires k < |intents| && Raises(intents[k])
    requires forall i :: 0 <= i < k ==> !Raises(intents[i])
    ensures Conversion(intents) == (Conversion(intents[..k]).0, true)
    decreases |intents|
  {
    var front := intents[..|intents| - 1];
    if k == |intents| - 1 {
      assert front == intents[..k];
      assert !Conversion(front).1 by {
        assert forall i :: 0 <= i < |front| ==> front[i] == intents[i];
      }
    } else {
      assert front[k] == intents[k];
      assert front[..k] == intents[..k];
      RaisedKeepsEarlierRecords(front, k);
    }
  }

  /** An intent without patterns writes nothing and does not raise, even
      without responses. */
  lemma EmptyIntentWritesNothing(intents: seq<Intent>, responses: seq<string>)
    ensures Conversion(intents + [Intent([], responses)]) == Conversion(intents)
  {
    var all := intents + [Intent([], responses)];
    assert all[..|all| - 1] == intents;
    if !Conversion(intents).1 {
      assert IntentRecords(Intent([], responses)) == [];
      assert Conversion(intents).0 + [] == Conversion(intents).0;
    }
  }
}
