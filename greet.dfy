/** `greet_user` of week1/project/src/handlers/greet.rs: count the request, greet the path name. */
module Greet {
  import Text
  import opened State

  /** The JSON body `{"message": ..}`. */
  datatype GreetReply = GreetReply(message: string)

  /** "Hello, <name>!", the name taken verbatim from the path. */
  function Greeting(name: string): (m: string)
    ensures m == "Hello, " + name + "!"
  {
    Text.Salutation("Hello", name)
  }

  /** Different path names get different greetings. */
  lemma GreetingDeterminesName(name: string, name': string)
    requires Greeting(name) == Greeting(name')
    ensures name == name'
  {
    Text.SalutationInjective("Hello", name, name');
  }

  /**
   * The handler raises the shared count by exactly one and changes nothing
   * else; its reply depends on the name only, never on the count.
   */
  method GreetUser(name: string, state: AppState) returns (reply: GreetReply)
    requires state.requestCount.value < U64_MAX
    modifies state.requestCount
    ensures state.requestCount.value == old(state.requestCount.value) + 1
    ensures reply == GreetReply(Greeting(name))
  {
    state.IncrementRequests();
    reply := GreetReply(Greeting(name));
  }
}
