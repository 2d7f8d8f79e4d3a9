/**
  The decision logic of the homework-status bot: validation of the review
  service's answer, the text of a status notification, and the startup check
  of the three credentials.
*/
module Homework {
  import opened Wrappers
  import opened Json

  /** The exceptions the validation and formatting steps raise, with their messages. */
  datatype Error =
    | TypeError(message: string)
    | KeyError(message: string)
    | AttributeError(message: string)

  const NotADictMessage := "ответ от API не являеться словарем"
  const NoHomeworksMessage := "нет ключа \"homeworks\""
  const NoCurrentDateMessage := "нет ключа \"current_date\""
  const NotAListMessage := "\"homeworks\" не являеться списком"
  const NoNameMessage := "нет ключа \"homework_name\""
  const UnknownStatusMessage := "нет такого статуса"

  const ApprovedVerdict := "Работа проверена: ревьюеру всё понравилось. Ура!"
  const ReviewingVerdict := "Работа взята на проверку ревьюером."
  const RejectedVerdict := "Работа проверена: у ревьюера есть замечания."

  /** The fixed table from a review status to the sentence shown to the student. */
  const Verdicts: map<string, string> := map[
    "approved" := ApprovedVerdict,
    "reviewing" := ReviewingVerdict,
    "rejected" := RejectedVerdict
  ]

  const NoticePrefix := "Изменился статус проверки работы \""
  const NoticeInfix := "\". "

  /**
    What a usable answer looks like, stated without the order of the checks:
    a dictionary that has a `current_date` key and whose `homeworks` value is a
    non-empty list.
  */
  predicate WellFormedResponse(response: Json) {
    && response.Obj?
    && HasKey(response.fields, "current_date")
    && Lookup(response.fields, "homeworks").Some?
    && Lookup(response.fields, "homeworks").value.Arr?
    && Lookup(response.fields, "homeworks").value.items != []
  }

  /**
    `check_response`: the list of homeworks of a usable answer, or the
    exception raised by the first check that fails. The checks run in the
    source's order: dictionary type, truthy `homeworks`, presence of
    `current_date`, list type.
  */
  function CheckResponse(response: Json): (r: Result<seq<Json>, Error>)
    ensures r.Ok? <==> WellFormedResponse(response)
    ensures r.Ok? ==> r.value != [] && Lookup(response.fields, "homeworks") == Some(Arr(r.value))
    ensures !response.Obj? ==> r == Err(TypeError(NotADictMessage))
    ensures r.Err? && r.error.TypeError? ==>
              !response.Obj? || HasKey(response.fields, "current_date")
    ensures r.Err? ==> r.error.TypeError? || r.error.KeyError?
  {
    if !response.Obj? then Err(TypeError(NotADictMessage))
    else
      var homeworks := Get(response.fields, "homeworks");
      if !Truthy(homeworks) then Err(KeyError(NoHomeworksMessage))
      else if !HasKey(response.fields, "current_date") then Err(KeyError(NoCurrentDateMessage))
      else if !homeworks.Arr? then Err(TypeError(NotAListMessage))
      else Ok(homeworks.items)
  }

  /** The notification text for a homework name and a verdict sentence. */
  function Notice(name: Json, verdict: string): (r: string)
    ensures |r| >= |NoticePrefix| + |verdict|
    ensures r[..|NoticePrefix|] == NoticePrefix && r[|r| - |verdict|..] == verdict
  {
    NoticePrefix + Text(name) + NoticeInfix + verdict
  }

  /** The status of a homework record is one the verdict table knows. */
  predicate KnownStatus(status: Json): (b: bool)
    ensures b <==> status == Str("approved") || status == Str("reviewing") || status == Str("rejected")
  {
    status.Str? && status.s in Verdicts
  }

  /**
    `parse_status`: the notification text for one homework record, or the
    exception raised: `AttributeError` when the record is not a dictionary,
    `KeyError` when the name is missing or falsy, `TypeError` when the status
    is a list or a dictionary (unhashable, so the table cannot be searched),
    `KeyError` when the status is missing or not in the table.
  */
  function ParseStatus(homework: Json): (r: Result<string, Error>)
    ensures r.Ok? <==>
              homework.Obj? && Truthy(Get(homework.fields, "homework_name"))
              && KnownStatus(Get(homework.fields, "status"))
    ensures r.Ok? ==>
              exists status :: status in Verdicts && Get(homework.fields, "status") == Str(status)
                && r.value == Notice(Get(homework.fields, "homework_name"), Verdicts[status])
    ensures homework.Obj? && !Truthy(Get(homework.fields, "homework_name")) ==>
              r == Err(KeyError(NoNameMessage))
    ensures r.Err? && r.error.AttributeError? <==> !homework.Obj?
  {
    if !homework.Obj? then
      Err(AttributeError("'" + TypeName(homework) + "' object has no attribute 'get'"))
    else
      var name := Get(homework.fields, "homework_name");
      if !Truthy(name) then Err(KeyError(NoNameMessage))
      else
        var status := Get(homework.fields, "status");
        if status.Arr? || status.Obj? then Err(TypeError("unhashable type: '" + TypeName(status) + "'"))
        else if !KnownStatus(status) then Err(KeyError(UnknownStatusMessage))
        else Ok(Notice(name, Verdicts[status.s]))
  }

  /**
    A missing `homeworks` key, or a falsy value under it (`null`, `false`,
    `0`, `""`, `[]`, `{}`), is a `KeyError`; in particular an empty list is
    refused before the list is ever indexed.
  */
  lemma FalsyHomeworksRejected(response: Json)
    requires response.Obj? && !Truthy(Get(response.fields, "homeworks"))
    ensures CheckResponse(response) == Err(KeyError(NoHomeworksMessage))
  {
  }

  /**
    The `current_date` check comes before the list-type check: a truthy
    `homeworks` value that is not a list, in a dictionary without
    `current_date`, is reported as a missing key and not as a wrong type.
  */
  lemma CurrentDateCheckedBeforeListType(response: Json)
    requires response.Obj? && !HasKey(response.fields, "current_date")
    requires Truthy(Get(response.fields, "homeworks"))
    ensures CheckResponse(response) == Err(KeyError(NoCurrentDateMessage))
  {
  }

  /**
    A dictionary with `current_date` and a truthy `homeworks` value that is
    not a list is the `TypeError` about the list type.
  */
  lemma NonListHomeworksRejected(response: Json)
    requires response.Obj? && HasKey(response.fields, "current_date")
    requires Truthy(Get(response.fields, "homeworks")) && !Get(response.fields, "homeworks").Arr?
    ensures CheckResponse(response) == Err(TypeError(NotAListMessage))
  {
  }

  /** `{"homeworks": "x"}` fails on the missing `current_date`; with it present, on the type. */
  lemma StringHomeworksExample()
    ensures CheckResponse(Obj([Member("homeworks", Str("x"))]))
            == Err(KeyError(NoCurrentDateMessage))
    ensures CheckResponse(Obj([Member("homeworks", Str("x")), Member("current_date", Int(0))]))
            == Err(TypeError(NotAListMessage))
  {
    var once := [Member("homeworks", Str("x"))];
    assert !HasKey(once, "current_date");
    var both := [Member("homeworks", Str("x")), Member("current_date", Int(0))];
    assert both[1].key == "current_date";
  }

  /** The three verdict sentences differ from each other. */
  lemma VerdictsDistinct(s1: string, s2: string)
    requires s1 in Verdicts && s2 in Verdicts
    ensures Verdicts[s1] == Verdicts[s2] <==> s1 == s2
  {
  }

  /**
    `x + v1 == y + v2` for two verdict sentences forces the same sentence and
    the same leading text: no verdict is a suffix of another.
  */
  lemma {:induction false} VerdictSuffixDetermined(x: string, v1: string, y: string, v2: string)
    requires v1 in Verdicts.Values && v2 in Verdicts.Values
    requires x + v1 == y + v2
    ensures v1 == v2 && x == y
  {
    var m := x + v1;
    assert m[|m| - 1] == v1[|v1| - 1] == v2[|v2| - 1];
    assert m[|m| - 2] == v1[|v1| - 2] == v2[|v2| - 2];
    assert v1 == v2;
    assert x == m[..|x|] == y;
  }

  /**
    A notification identifies what produced it: two notices are equal exactly
    when the inserted names read the same and the verdicts are the same.
  */
  lemma {:induction false} NoticeInjective(n1: Json, v1: string, n2: Json, v2: string)
    requires v1 in Verdicts.Values && v2 in Verdicts.Values
    ensures Notice(n1, v1) == Notice(n2, v2) <==> Text(n1) == Text(n2) && v1 == v2
  {
    if Notice(n1, v1) == Notice(n2, v2) {
      var x1 := NoticePrefix + Text(n1) + NoticeInfix;
      var x2 := NoticePrefix + Text(n2) + NoticeInfix;
      VerdictSuffixDetermined(x1, v1, x2, v2);
      assert Text(n1) == x1[|NoticePrefix|..|x1| - |NoticeInfix|] == Text(n2);
    }
  }

  /**
    For homework records that format successfully, the messages agree exactly
    when the names read the same and the statuses are the same; in particular a
    new status under the same name always gives a new message.
  */
  lemma {:induction false} ParseStatusInjective(h1: Json, h2: Json)
    requires ParseStatus(h1).Ok? && ParseStatus(h2).Ok?
    ensures ParseStatus(h1) == ParseStatus(h2) <==>
              && Text(Get(h1.fields, "homework_name")) == Text(Get(h2.fields, "homework_name"))
              && Get(h1.fields, "status") == Get(h2.fields, "status")
  {
    var s1 := Get(h1.fields, "status").s;
    var s2 := Get(h2.fields, "status").s;
    NoticeInjective(Get(h1.fields, "homework_name"), Verdicts[s1],
                    Get(h2.fields, "homework_name"), Verdicts[s2]);
    VerdictsDistinct(s1, s2);
  }

  /**
    Once the name is present and truthy, a status outside the table is an
    error: `TypeError` when it is a list or a dictionary, `KeyError` when it is
    missing or any other value.
  */
  lemma UnknownStatusRejected(homework: Json)
    requires homework.Obj? && Truthy(Get(homework.fields, "homework_name"))
    requires !KnownStatus(Get(homework.fields, "status"))
    ensures var status := Get(homework.fields, "status");
            ParseStatus(homework) ==
              if status.Arr? || status.Obj? then Err(TypeError("unhashable type: '" + TypeName(status) + "'"))
              else Err(KeyError(UnknownStatusMessage))
  {
  }

  /** The formatted example: name `X`, status `approved`. */
  lemma ApprovedExample()
    ensures ParseStatus(Obj([Member("homework_name", Str("X")), Member("status", Str("approved"))]))
            == Ok(NoticePrefix + "X" + NoticeInfix + ApprovedVerdict)
  {
    var fields := [Member("homework_name", Str("X")), Member("status", Str("approved"))];
    assert Get(fields, "homework_name") == Str("X");
    assert Get(fields, "status") == Str("approved");
  }

  /** An unknown status string is a `KeyError`, not a silent default. */
  lemma UnknownStatusExample()
    ensures ParseStatus(Obj([Member("homework_name", Str("X")), Member("status", Str("unknown_status"))]))
            == Err(KeyError(UnknownStatusMessage))
  {
  }

  /** A credential is usable when it was set and is not empty. */
  predicate Usable(token: Option<string>) {
    token.Some? && token.value != ""
  }

  /** Python's `all(...)` over credentials read from the environment. */
  function All(tokens: seq<Option<string>>): (r: bool)
    ensures r <==> forall k :: 0 <= k < |tokens| ==> Usable(tokens[k])
  {
    if tokens == [] then true
    else Usable(tokens[0]) && All(tokens[1..])
  }

  /** `check_tokens`: the bot may start only when all three credentials are set and non-empty. */
  function CheckTokens(practicumToken: Option<string>, telegramToken: Option<string>,
                       telegramChatId: Option<string>): (r: bool)
    ensures r <==> Usable(practicumToken) && Usable(telegramToken) && Usable(telegramChatId)
  {
    var tokens := [practicumToken, telegramToken, telegramChatId];
    assert tokens[0] == practicumToken && tokens[1] == telegramToken && tokens[2] == telegramChatId;
    All(tokens)
  }
}
