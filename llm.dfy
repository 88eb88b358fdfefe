/** The OpenAI-compatible client of src/llms/llm.py: construction checks,
    the request `invoke` sends, how it reads the reply, and `get_model_info`.
    The remote call and the base class's `validate_response` are not part of
    this model and are passed in as functions. */
module LlmClient {
  import opened Wrappers
  import opened Values

  /** Why `LLM.__init__` raises, in the order it checks. */
  datatype InitError = MissingApiKey | MissingBaseUrl | MissingModelName

  /** The error `__init__` raises, if any: `api_key is None` first, then
      `base_url is None`, then a falsy `model_name`. Only None is refused for
      the key and the endpoint, so an empty string passes those two checks. */
  function InitFailure(apiKey: Value, baseUrl: Value, modelName: Value): (e: Option<InitError>)
    ensures e == Some(MissingApiKey) <==> apiKey == PyNone
    ensures e == Some(MissingBaseUrl) <==> apiKey != PyNone && baseUrl == PyNone
    ensures e == Some(MissingModelName) <==> apiKey != PyNone && baseUrl != PyNone && !Truthy(modelName)
    ensures e.None? <==> apiKey != PyNone && baseUrl != PyNone && Truthy(modelName)
  {
    if apiKey == PyNone then Some(MissingApiKey)
    else if baseUrl == PyNone then Some(MissingBaseUrl)
    else if !Truthy(modelName) then Some(MissingModelName)
    else None
  }

  /** The OpenAI client object, as far as it is visible here: the key and
      endpoint it is bound to. Creating it sends nothing. */
  datatype Client = Client(apiKey: Value, baseUrl: Value)

  datatype Role = System | User

  datatype Message = Message(role: Role, content: string)

  /** `kwargs.get("temperature", 0.7)`: the caller's value, or the default 0.7. */
  datatype Temperature = DefaultTemperature | GivenTemperature(value: Value)

  /** The keyword arguments of `chat.completions.create`. */
  datatype Request = Request(
    model: Value,
    messages: seq<Message>,
    temperature: Temperature,
    maxTokens: Value,
    stream: bool)

  /** A reply of the completion endpoint: zero or more choices, each with an
      optional message whose content may be None. */
  datatype ChatMessage = ChatMessage(content: Option<string>)
  datatype Choice = Choice(message: Option<ChatMessage>)
  datatype Response = Response(choices: seq<Choice>)

  /** Whatever exception the OpenAI library raises; it is never inspected. */
  datatype ProviderError = ProviderError(id: nat)

  /** The remote endpoint: its answer to the `n`-th call (counting from 0)
      a client makes with a request. Successive calls may be answered
      differently, so a second call would show in the result. */
  type Provider = (Client, Request, nat) -> Result<Response, ProviderError>

  /** What `invoke` gives back, with the number of calls the client has made
      to the endpoint once it returns. */
  datatype Outcome = Outcome(result: Result<string, ProviderError>, calls: nat)

  /** `BaseLLM.validate_response`, applied to the first choice's content. */
  type ResponseValidator = Option<string> -> string

  const DefaultMaxTokens := 4000

  /** `{"model": ..., "base_url": ...}` */
  datatype ModelInfo = ModelInfo(model: Value, baseUrl: Value)

  /** The `response.choices and response.choices[0].message` test failing:
      no choice, or a first choice without a message. */
  predicate NoContent(response: Response) {
    response.choices == [] || response.choices[0].message.None?
  }

  /** How `invoke` turns the endpoint's answer into its result: an error is
      raised again unchanged, a reply without content gives "", otherwise the
      first choice's content goes through the validator. */
  function ReadReply(reply: Result<Response, ProviderError>, validateResponse: ResponseValidator): (r: Result<string, ProviderError>)
    ensures reply.Failure? <==> r.Failure?
    ensures reply.Failure? ==> r.error == reply.error
    ensures reply.Success? && NoContent(reply.value) ==> r == Success("")
    ensures reply.Success? && !NoContent(reply.value) ==>
      r == Success(validateResponse(reply.value.choices[0].message.value.content))
  {
    var response :- reply;
    if response.choices != [] && response.choices[0].message.Some? then
      var content := response.choices[0].message.value.content;
      Success(validateResponse(content))
    else
      Success("")
  }

  class Llm {
    var apiKey: Value
    var baseUrl: Value
    var modelName: Value
    var client: Client
    var defaultModel: Value

    /** A client whose construction finished. */
    ghost predicate Valid()
      reads this
    {
      && apiKey != PyNone && baseUrl != PyNone && Truthy(modelName)
      && client == Client(apiKey, baseUrl)
      && defaultModel == modelName
    }

    /** The construction steps past the two None checks: the base class keeps
        the three arguments and the OpenAI client is bound to key and endpoint.
        `default_model` is not set yet. */
    constructor Bind(apiKey: Value, baseUrl: Value, modelName: Value)
      ensures this.apiKey == apiKey && this.baseUrl == baseUrl && this.modelName == modelName
      ensures client == Client(apiKey, baseUrl)
      ensures defaultModel == PyNone
    {
      this.apiKey := apiKey;
      this.baseUrl := baseUrl;
      this.modelName := modelName;
      client := Client(apiKey, baseUrl);
      defaultModel := PyNone;
    }

    /** `LLM(api_key, base_url, model_name)`: raises the first failed check,
        otherwise a client whose model is `model_name`. */
    static method New(apiKey: Value, baseUrl: Value, modelName: Value) returns (r: Result<Llm, InitError>)
      ensures r.Failure? <==> InitFailure(apiKey, baseUrl, modelName).Some?
      ensures r.Failure? ==> InitFailure(apiKey, baseUrl, modelName) == Some(r.error)
      ensures r.Success? ==> fresh(r.value) && r.value.Valid()
      ensures r.Success? ==> r.value.apiKey == apiKey && r.value.defaultModel == modelName
      ensures r.Success? ==> r.value.GetModelInfo() == ModelInfo(modelName, baseUrl)
    {
      if apiKey == PyNone {
        return Failure(MissingApiKey);
      }
      if baseUrl == PyNone {
        return Failure(MissingBaseUrl);
      }
      var llm := new Llm.Bind(apiKey, baseUrl, modelName);
      if Truthy(llm.modelName) {
        llm.defaultModel := llm.modelName;
      } else {
        return Failure(MissingModelName);
      }
      return Success(llm);
    }

    /** `get_model_info()`: the stored model and endpoint. */
    function GetModelInfo(): (info: ModelInfo)
      reads this
      requires Valid()
      ensures info.model == defaultModel && info.baseUrl == baseUrl
    {
      ModelInfo(defaultModel, baseUrl)
    }

    /** The parameters `invoke` sends: the system prompt then the user prompt,
        unchanged, never streamed, for the client's model; only `temperature`
        and `max_tokens` are taken from the caller's options. */
    function BuildRequest(systemPrompt: string, userPrompt: string, kwargs: map<string, Value>): (req: Request)
      reads this
      requires Valid()
      ensures |req.messages| == 2
      ensures req.messages[0] == Message(System, systemPrompt)
      ensures req.messages[1] == Message(User, userPrompt)
      ensures !req.stream && req.model == defaultModel
      ensures "max_tokens" !in kwargs ==> req.maxTokens == PyInt(DefaultMaxTokens)
      ensures "max_tokens" in kwargs ==> req.maxTokens == kwargs["max_tokens"]
      ensures "temperature" !in kwargs ==> req.temperature == DefaultTemperature
      ensures "temperature" in kwargs ==> req.temperature == GivenTemperature(kwargs["temperature"])
    {
      var messages := [Message(System, systemPrompt), Message(User, userPrompt)];
      Request(
        model := defaultModel,
        messages := messages,
        temperature := if "temperature" in kwargs then GivenTemperature(kwargs["temperature"]) else DefaultTemperature,
        maxTokens := if "max_tokens" in kwargs then kwargs["max_tokens"] else PyInt(DefaultMaxTokens),
        stream := false)
    }

    /** `invoke(system_prompt, user_prompt, **kwargs)` after `calls` earlier
        calls: exactly one more call to the endpoint; its exception is raised
        again unchanged, an empty reply gives "", otherwise the first
        choice's content is validated. */
    function Invoke(systemPrompt: string, userPrompt: string, kwargs: map<string, Value>,
                    provider: Provider, calls: nat, validateResponse: ResponseValidator): (out: Outcome)
      reads this
      requires Valid()
      ensures out.calls == calls + 1
      ensures var reply := provider(client, BuildRequest(systemPrompt, userPrompt, kwargs), calls);
        && (reply.Failure? <==> out.result.Failure?)
        && (reply.Failure? ==> out.result.error == reply.error)
        && (reply.Success? && NoContent(reply.value) ==> out.result == Success(""))
        && (reply.Success? && !NoContent(reply.value) ==>
              out.result == Success(validateResponse(reply.value.choices[0].message.value.content)))
    {
      var reply := provider(client, BuildRequest(systemPrompt, userPrompt, kwargs), calls);
      Outcome(ReadReply(reply, validateResponse), calls + 1)
    }

    /** Options other than `temperature` and `max_tokens` change nothing. */
    lemma OtherOptionsIgnored(systemPrompt: string, userPrompt: string, kwargs: map<string, Value>)
      requires Valid()
      ensures BuildRequest(systemPrompt, userPrompt, kwargs) ==
              BuildRequest(systemPrompt, userPrompt, map k | k in kwargs && k in {"temperature", "max_tokens"} :: kwargs[k])
    {
    }

    /** The endpoint is consulted once, with the request BuildRequest makes:
        two endpoints that give the same answer to that call give the same
        outcome, however they would answer a later call. In particular a
        failed call is not retried. */
    lemma SingleCall(systemPrompt: string, userPrompt: string, kwargs: map<string, Value>,
                     p: Provider, q: Provider, calls: nat, validateResponse: ResponseValidator)
      requires Valid()
      requires p(client, BuildRequest(systemPrompt, userPrompt, kwargs), calls) ==
               q(client, BuildRequest(systemPrompt, userPrompt, kwargs), calls)
      ensures Invoke(systemPrompt, userPrompt, kwargs, p, calls, validateResponse) ==
              Invoke(systemPrompt, userPrompt, kwargs, q, calls, validateResponse)
    {
    }

    /** Only the first choice is read: replies that agree on it give the same
        result, whatever other choices they carry. */
    lemma FirstChoiceOnly(systemPrompt: string, userPrompt: string, kwargs: map<string, Value>,
                          p: Provider, q: Provider, calls: nat, validateResponse: ResponseValidator)
      requires Valid()
      requires var req := BuildRequest(systemPrompt, userPrompt, kwargs);
        && p(client, req, calls).Success? && q(client, req, calls).Success?
        && p(client, req, calls).value.choices != [] && q(client, req, calls).value.choices != []
        && p(client, req, calls).value.choices[0] == q(client, req, calls).value.choices[0]
      ensures Invoke(systemPrompt, userPrompt, kwargs, p, calls, validateResponse) ==
              Invoke(systemPrompt, userPrompt, kwargs, q, calls, validateResponse)
    {
    }
  }
}
