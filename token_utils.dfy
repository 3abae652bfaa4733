/** Token budgeting for chat context: a character-count estimate of tokens,
    and truncation of a message history to the newest messages that fit a
    budget. */
module TokenUtils {

  datatype Message = Message(role: string, content: string)

  /** `estimateTokens`: one token per four characters, rounded up. */
  function EstimateTokens(text: string): (n: nat)
    ensures 4 * n >= |text| && 4 * n < |text| + 4
    ensures n == 0 <==> |text| == 0
  {
    (|text| + 3) / 4
  }

  /** A longer text is never estimated at fewer tokens. */
  lemma EstimateMonotone(a: string, b: string)
    requires |a| <= |b|
    ensures EstimateTokens(a) <= EstimateTokens(b)
  {
  }

  /** `calculateTotalTokens`: the estimates of the contents, summed. */
  function TotalTokens(messages: seq<Message>): nat
    decreases |messages|
  {
    if |messages| == 0 then 0
    else TotalTokens(messages[..|messages| - 1]) + EstimateTokens(messages[|messages| - 1].content)
  }

  /** The total of a concatenation is the sum of the totals. */
  lemma {:induction false} TotalTokensAppend(a: seq<Message>, b: seq<Message>)
    ensures TotalTokens(a + b) == TotalTokens(a) + TotalTokens(b)
    decreases |b|
  {
    if |b| == 0 {
      assert a + b == a;
    } else {
      var b' := b[..|b| - 1];
      assert (a + b)[..|a + b| - 1] == a + b';
      TotalTokensAppend(a, b');
    }
  }

  /** Where the kept suffix starts: walking from the newest message back,
      each message is taken while it still fits the remaining budget, and
      the walk stops at the first that does not. */
  function KeepFrom(messages: seq<Message>, budget: int): (k: nat)
    ensures k <= |messages|
    decreases |messages|
  {
    if |messages| == 0 then 0
    else
      var t := EstimateTokens(messages[|messages| - 1].content);
      if t > budget then |messages|
      else KeepFrom(messages[..|messages| - 1], budget - t)
  }

  /** `truncateToTokenLimit`. */
  method TruncateToTokenLimit(messages: seq<Message>, maxTokens: int) returns (result: seq<Message>)
    ensures result == messages[KeepFrom(messages, maxTokens)..]
  {
    var totalTokens := 0;
    result := [];
    var i := |messages| - 1;
    assert messages[..i + 1] == messages;
    while i >= 0
      invariant -1 <= i < |messages|
      invariant result == messages[i + 1..]
      invariant totalTokens == TotalTokens(result)
      invariant KeepFrom(messages, maxTokens) == KeepFrom(messages[..i + 1], maxTokens - totalTokens)
    {
      var tokens := EstimateTokens(messages[i].content);
      if totalTokens + tokens > maxTokens {
        break;
      }
      assert messages[..i + 1][..i] == messages[..i];
      TotalTokensAppend([messages[i]], result);
      assert [messages[i]] + result == messages[i..];
      assert TotalTokens([messages[i]]) == tokens;
      result := [messages[i]] + result;
      totalTokens := totalTokens + tokens;
      i := i - 1;
    }
  }

  /** The kept messages fit the budget, and the walk always keeps within
      `budget - (tokens taken)`. */
  lemma {:induction false} KeptFits(messages: seq<Message>, budget: int)
    ensures budget >= 0 ==> TotalTokens(messages[KeepFrom(messages, budget)..]) <= budget
    ensures budget < 0 ==> KeepFrom(messages, budget) == |messages|
    decreases |messages|
  {
    if |messages| > 0 {
      var init, last := messages[..|messages| - 1], messages[|messages| - 1];
      var t := EstimateTokens(last.content);
      if t <= budget {
        KeptFits(init, budget - t);
        KeptFitsStep(messages, budget);
      }
    }
  }

  /** The step of `KeptFits` that keeps the last message. */
  lemma KeptFitsStep(messages: seq<Message>, budget: int)
    requires |messages| > 0
    requires EstimateTokens(messages[|messages| - 1].content) <= budget
    requires var t := EstimateTokens(messages[|messages| - 1].content);
      TotalTokens(messages[..|messages| - 1][KeepFrom(messages[..|messages| - 1], budget - t)..]) <= budget - t
    ensures TotalTokens(messages[KeepFrom(messages, budget)..]) <= budget
  {
    var init, last := messages[..|messages| - 1], messages[|messages| - 1];
    var t := EstimateTokens(last.content);
    var k := KeepFrom(init, budget - t);
    assert KeepFrom(messages, budget) == k;
    assert messages[k..] == init[k..] + [last];
    TotalTokensAppend(init[k..], [last]);
    assert TotalTokens([last]) == t;
  }

  /** The walk stops at the first message that would overflow: adding the
      message just before the kept suffix exceeds the budget. */
  lemma {:induction false} StopsAtFirstOverflow(messages: seq<Message>, budget: int)
    ensures var k := KeepFrom(messages, budget);
      k > 0 ==> TotalTokens(messages[k - 1..]) > budget
    decreases |messages|
  {
    if |messages| > 0 {
      var init, last := messages[..|messages| - 1], messages[|messages| - 1];
      var t := EstimateTokens(last.content);
      if t > budget {
        assert messages[|messages| - 1..] == [last];
        assert TotalTokens([last]) == t;
      } else {
        StopsAtFirstOverflow(init, budget - t);
        var k := KeepFrom(init, budget - t);
        if k > 0 {
          assert messages[k - 1..] == init[k - 1..] + [last];
          TotalTokensAppend(init[k - 1..], [last]);
          assert TotalTokens([last]) == t;
        }
      }
    }
  }

  /** A total never shrinks when older messages are added in front. */
  lemma TotalTokensSuffix(messages: seq<Message>, j: nat, k: nat)
    requires j <= k <= |messages|
    ensures TotalTokens(messages[j..]) >= TotalTokens(messages[k..])
  {
    assert messages[j..] == messages[j..k] + messages[k..];
    TotalTokensAppend(messages[j..k], messages[k..]);
  }

  /** So no longer suffix fits: older messages that would fit on their own
      are not taken once one has overflowed. */
  lemma KeptIsLongestFittingWalk(messages: seq<Message>, budget: int, j: nat)
    requires j < KeepFrom(messages, budget)
    ensures TotalTokens(messages[j..]) > budget
  {
    var k := KeepFrom(messages, budget);
    StopsAtFirstOverflow(messages, budget);
    TotalTokensSuffix(messages, j, k - 1);
  }

  /** If the newest message alone overflows, nothing is kept. */
  lemma NewestOverflowKeepsNothing(messages: seq<Message>, budget: int)
    requires |messages| > 0 && EstimateTokens(messages[|messages| - 1].content) > budget
    ensures messages[KeepFrom(messages, budget)..] == []
  {
  }
}
