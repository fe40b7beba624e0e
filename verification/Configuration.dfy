/**
 The webhook configurations: every call rebuilds the webhooks of both objects from a template that the first call
 saved in an annotation. JSON is a lossless codec; the two kinds of configuration have the same shape.
 */
module Configuration {
  import opened Contents

  datatype Service = Service(namespace: string, name: string, path: Option<string>)

  datatype Url = Given(text: string) | Built(host: Host, port: int, path: string)

  datatype ClientConfig = ClientConfig(url: Option<Url>, service: Option<Service>, caBundle: Content)

  datatype Webhook = Webhook(name: string, rules: int, clientConfig: ClientConfig)

  /** The "template" annotation. A missing one and an empty one count as none. */
  datatype Annotation = NoTemplate | Json(webhooks: seq<Webhook>) | Malformed

  datatype Config = Config(webhooks: seq<Webhook>, template: Annotation)

  datatype Object = Object(config: Config, version: nat)

  datatype Settings = Settings(namespace: string, serviceName: string, host: Host, port: int)

  // ----- What one call makes of a template -----

  /** With a host, a service is turned into a URL; that needs the path of the service. */
  predicate Convertible(s: Settings, wh: Webhook)
  {
    s.host != NoHost && wh.clientConfig.service.Some? ==> wh.clientConfig.service.value.path.Some?
  }

  predicate AllConvertible(s: Settings, whs: seq<Webhook>)
  {
    forall i :: 0 <= i < |whs| ==> Convertible(s, whs[i])
  }

  function ApplyTo(s: Settings, wh: Webhook, bundle: Content): Webhook
    requires Convertible(s, wh)
  {
    var cc := wh.clientConfig;
    wh.(clientConfig :=
      match cc.service
      case None => cc.(caBundle := bundle)
      case Some(service) =>
        if s.host == NoHost
        then ClientConfig(cc.url, Some(Service(s.namespace, s.serviceName, service.path)), bundle)
        else ClientConfig(Some(Built(s.host, s.port, service.path.value)), None, bundle))
  }

  function Apply(s: Settings, whs: seq<Webhook>, bundle: Content): (r: seq<Webhook>)
    requires AllConvertible(s, whs)
    ensures |r| == |whs|
  {
    seq(|whs|, i requires 0 <= i < |whs| => ApplyTo(s, whs[i], bundle))
  }

  // ----- The same by fields -----

  /**
   `now` is the webhook `was` with the bundle. Without a host, a service is the one of the settings under the path it
   had; with a host, it has become a URL of that host, port and path. A webhook without a service keeps its URL.
   */
  ghost predicate Converted(s: Settings, was: Webhook, now: Webhook, bundle: Content)
  {
    && now.name == was.name && now.rules == was.rules && now.clientConfig.caBundle == bundle
    && var before, after := was.clientConfig, now.clientConfig;
       && (before.service.None? ==> after.service == None && after.url == before.url)
       && (before.service.Some? && s.host == NoHost ==>
             && after.url == before.url && after.service.Some? && after.service.value.path == before.service.value.path
             && after.service.value.namespace == s.namespace && after.service.value.name == s.serviceName)
       && (before.service.Some? && s.host != NoHost ==>
             && after.service == None && before.service.value.path.Some?
             && after.url == Some(Built(s.host, s.port, before.service.value.path.value)))
  }

  /** A service without a path would have to become a URL. */
  ghost predicate LacksPath(s: Settings, whs: seq<Webhook>)
  {
    && s.host != NoHost
    && exists i :: 0 <= i < |whs| && whs[i].clientConfig.service.Some? && whs[i].clientConfig.service.value.path.None?
  }

  ghost predicate AllConverted(s: Settings, original: seq<Webhook>, whs: seq<Webhook>, bundle: Content)
  {
    |whs| == |original| && forall i :: 0 <= i < |whs| ==> Converted(s, original[i], whs[i], bundle)
  }

  /** `Apply` does this and nothing else. */
  lemma ApplyMeans(s: Settings, original: seq<Webhook>, whs: seq<Webhook>, bundle: Content)
    requires AllConvertible(s, original)
    ensures whs == Apply(s, original, bundle) <==> AllConverted(s, original, whs, bundle)
  {
    if AllConverted(s, original, whs, bundle) {
      forall i | 0 <= i < |whs| ensures whs[i] == ApplyTo(s, original[i], bundle) {
        assert Converted(s, original[i], whs[i], bundle);
      }
    }
  }

  /** The template in force: the saved one, or else the webhooks themselves. */
  function Template(c: Config): Option<seq<Webhook>>
  {
    match c.template
    case NoTemplate => Some(c.webhooks)
    case Json(whs) => Some(whs)
    case Malformed => None
  }

  // ----- History independence -----

  /**
   Either nobody has touched the configuration, or it is the original with one of `bundles` applied, and the
   annotation still encodes the original.
   */
  ghost predicate FromOriginal(s: Settings, c: Config, original: seq<Webhook>, bundles: set<Content>)
  {
    || c == Config(original, NoTemplate)
    || (AllConvertible(s, original) && c.template == Json(original)
        && exists b :: b in bundles && c.webhooks == Apply(s, original, b))
  }

  function Ensured(s: Settings, original: seq<Webhook>, bundle: Content): Config
    requires AllConvertible(s, original)
  {
    Config(Apply(s, original, bundle), Json(original))
  }

  /** Whatever the history, the template in force is the original. */
  lemma TemplateIsOriginal(s: Settings, c: Config, original: seq<Webhook>, bundles: set<Content>)
    requires FromOriginal(s, c, original, bundles)
    ensures Template(c) == Some(original)
  {
  }

  /** One call on one configuration: it fails, or it applies its bundle to the template in force. */
  ghost predicate IsStep(s: Settings, c: Config, c': Config, bundle: Content)
  {
    || c' == c
    || match Template(c)
       case None => false
       case Some(whs) => AllConvertible(s, whs) && c' == Ensured(s, whs, bundle)
  }

  ghost predicate StepAt(s: Settings, history: seq<Config>, bundles: seq<Content>, k: nat)
    requires |history| == |bundles| + 1
  {
    k < |bundles| ==> IsStep(s, history[k], history[k + 1], bundles[k])
  }

  /**
   Whatever the sequence of calls, a configuration is the original or the original with the bundle of one of the
   calls: no bundle and no service of an earlier call is left in it.
   */
  lemma {:induction false} HistoryIsForgotten(s: Settings, original: seq<Webhook>, history: seq<Config>,
                                              bundles: seq<Content>, k: nat)
    requires |history| == |bundles| + 1 && k <= |bundles| && history[0] == Config(original, NoTemplate)
    requires forall i: nat :: StepAt(s, history, bundles, i)
    ensures FromOriginal(s, history[k], original, set i | 0 <= i < k :: bundles[i])
    ensures || history[k] == Config(original, NoTemplate)
            || (history[k].template == Json(original)
                && exists i :: 0 <= i < k && AllConverted(s, original, history[k].webhooks, bundles[i]))
    decreases k
  {
    if k == 0 {
    } else {
      HistoryIsForgotten(s, original, history, bundles, k - 1);
      assert StepAt(s, history, bundles, k - 1);
      var before, now := set i | 0 <= i < k - 1 :: bundles[i], set i | 0 <= i < k :: bundles[i];
      TemplateIsOriginal(s, history[k - 1], original, before);
      MoreBundles(s, history[k - 1], original, before, now);
      assert bundles[k - 1] in now;
      if history[k] != history[k - 1] {
        ApplyMeans(s, original, history[k].webhooks, bundles[k - 1]);
      }
    }
  }

  datatype Outcome = Success | Failure | Panic

  class ConfigStore {
    const settings: Settings
    var mutating: Object
    var validating: Object
    var nextVersion: nat
    /** The webhooks both objects were installed with, and the bundles anybody has applied since. */
    ghost const mutatingOriginal: seq<Webhook>
    ghost const validatingOriginal: seq<Webhook>
    ghost var bundles: set<Content>
    /** How often another replica changed one of them. */
    ghost var foreign: nat
    /** How many calls failed, or lost their reply, although the objects allowed them. */
    ghost var faults: nat

    ghost predicate Valid()
      reads this
    {
      && mutating.version < nextVersion && validating.version < nextVersion
      && FromOriginal(settings, mutating.config, mutatingOriginal, bundles)
      && FromOriginal(settings, validating.config, validatingOriginal, bundles)
    }

    twostate predicate Onward()
      reads this
    {
      && Valid() && old(bundles) <= bundles && old(nextVersion) <= nextVersion
      && old(foreign) <= foreign && old(faults) <= faults
    }

    /** No other replica changed one of them. */
    twostate predicate Undisturbed()
      reads this
    {
      foreign == old(foreign)
    }

    /** No call failed without a reason in the objects. */
    twostate predicate Smooth()
      reads this
    {
      faults == old(faults)
    }

    /** Every webhook can be given the bundle, in the mode the host selects. */
    ghost predicate Convertibles()
      reads this
    {
      AllConvertible(settings, mutatingOriginal) && AllConvertible(settings, validatingOriginal)
    }

    constructor (settings: Settings, mutating: seq<Webhook>, validating: seq<Webhook>)
      ensures Valid() && this.settings == settings && bundles == {} && foreign == 0 && faults == 0
      ensures mutatingOriginal == mutating && validatingOriginal == validating
    {
      this.settings := settings;
      this.mutating := Object(Config(mutating, NoTemplate), 0);
      this.validating := Object(Config(validating, NoTemplate), 0);
      nextVersion := 1;
      mutatingOriginal, validatingOriginal := mutating, validating;
      bundles, foreign, faults := {}, 0, 0;
    }

    /** Other replicas run the same calls with bundles of their own. */
    method Interfere()
      requires Valid()
      modifies this`mutating, this`validating, this`nextVersion, this`bundles, this`foreign
      ensures Onward()
      ensures Undisturbed() ==> mutating == old(mutating) && validating == old(validating)
      ensures mutating.version < old(nextVersion) ==> mutating == old(mutating)
      ensures validating.version < old(nextVersion) ==> validating == old(validating)
    {
      var n: nat := *;
      while n > 0
        invariant Onward()
        invariant Undisturbed() ==> mutating == old(mutating) && validating == old(validating)
        invariant mutating.version < old(nextVersion) ==> mutating == old(mutating)
        invariant validating.version < old(nextVersion) ==> validating == old(validating)
      {
        var bundle: Content := *;
        ghost var more := bundles + {bundle};
        MoreBundles(settings, mutating.config, mutatingOriginal, bundles, more);
        MoreBundles(settings, validating.config, validatingOriginal, bundles, more);
        bundles := more;
        var m := Template(mutating.config);
        var v := Template(validating.config);
        if * {
          if m.Some? && AllConvertible(settings, m.value) {
            mutating := Object(Ensured(settings, m.value, bundle), nextVersion);
            assert bundle in bundles;
          }
        } else if v.Some? && AllConvertible(settings, v.value) {
          validating := Object(Ensured(settings, v.value, bundle), nextVersion);
          assert bundle in bundles;
        }
        nextVersion, foreign := nextVersion + 1, foreign + 1;
        n := n - 1;
      }
    }

    /** The loop over the template: `wh` is edited in place and appended. A nil path is a nil dereference. */
    method BuildWebhooks(template: seq<Webhook>, caBundle: Content) returns (ok: bool, whs: seq<Webhook>)
      ensures ok <==> AllConvertible(settings, template)
      ensures !ok <==> LacksPath(settings, template)
      ensures ok ==> whs == Apply(settings, template, caBundle)
      ensures ok ==> AllConverted(settings, template, whs, caBundle)
    {
      whs := [];
      for i := 0 to |template|
        invariant |whs| == i
        invariant forall j :: 0 <= j < i ==> Convertible(settings, template[j])
        invariant forall j :: 0 <= j < i ==> whs[j] == ApplyTo(settings, template[j], caBundle)
      {
        var wh := template[i];
        wh := wh.(clientConfig := wh.clientConfig.(caBundle := caBundle));
        if wh.clientConfig.service.Some? {
          var service := wh.clientConfig.service.value;
          wh := wh.(clientConfig := wh.clientConfig.(
            service := Some(service.(namespace := settings.namespace, name := settings.serviceName))));
        }
        if settings.host != NoHost && wh.clientConfig.service.Some? {
          var path := wh.clientConfig.service.value.path;
          if path.None? {
            assert !Convertible(settings, template[i]);
            return false, [];
          }
          wh := wh.(clientConfig := wh.clientConfig.(
            url := Some(Built(settings.host, settings.port, path.value)), service := None));
        }
        whs := whs + [wh];
      }
      ApplyMeans(settings, template, whs, caBundle);
      return true, whs;
    }

    /**
     Update with the version that was read: only that version is ever replaced (`wrote`), or found to be in place.
     Writing the content that is there already changes nothing.
     */
    method UpdateMutating(c: Config, version: nat) returns (ok: bool, ghost wrote: bool)
      requires Valid() && version < nextVersion
      requires FromOriginal(settings, c, mutatingOriginal, bundles)
      modifies this`mutating, this`validating, this`nextVersion, this`bundles, this`foreign, this`faults
      ensures Onward()
      ensures Undisturbed() ==> validating == old(validating)
      ensures ok || wrote ==> old(mutating).version == version && mutating.config == c
      ensures wrote ==> old(mutating.config) != c && mutating.version >= old(nextVersion)
      ensures !wrote && (ok || Undisturbed()) ==> mutating == old(mutating)
      ensures Undisturbed() && Smooth() ==> (ok <==> version == old(mutating).version)
    {
      Interfere();
      MoreBundles(settings, c, mutatingOriginal, old(bundles), bundles);
      wrote := false;
      if * {
        faults := faults + 1;
        return false, wrote;
      }
      if version != mutating.version {
        return false, wrote;
      }
      if c != mutating.config {
        mutating, nextVersion, wrote := Object(c, nextVersion), nextVersion + 1, true;
      }
      if * {
        faults := faults + 1;
        return false, wrote;
      }
      return true, wrote;
    }

    method UpdateValidating(c: Config, version: nat) returns (ok: bool, ghost wrote: bool)
      requires Valid() && version < nextVersion
      requires FromOriginal(settings, c, validatingOriginal, bundles)
      modifies this`mutating, this`validating, this`nextVersion, this`bundles, this`foreign, this`faults
      ensures Onward()
      ensures Undisturbed() ==> mutating == old(mutating)
      ensures ok || wrote ==> old(validating).version == version && validating.config == c
      ensures wrote ==> old(validating.config) != c && validating.version >= old(nextVersion)
      ensures !wrote && (ok || Undisturbed()) ==> validating == old(validating)
      ensures Undisturbed() && Smooth() ==> (ok <==> version == old(validating).version)
    {
      Interfere();
      MoreBundles(settings, c, validatingOriginal, old(bundles), bundles);
      wrote := false;
      if * {
        faults := faults + 1;
        return false, wrote;
      }
      if version != validating.version {
        return false, wrote;
      }
      if c != validating.config {
        validating, nextVersion, wrote := Object(c, nextVersion), nextVersion + 1, true;
      }
      if * {
        faults := faults + 1;
        return false, wrote;
      }
      return true, wrote;
    }

    /**
     `Ensure`. At every return, with other replicas at work, both configurations are still the original or the
     original with some bundle. Undisturbed, success means this bundle in both; a failure leaves each of them as it
     was or with this bundle, and never the mutating one ahead of the validating one.
     */
    method Ensure(caBundle: Content) returns (r: Outcome)
      requires Valid()
      modifies this`mutating, this`validating, this`nextVersion, this`bundles, this`foreign, this`faults
      ensures Onward() && caBundle in bundles
      ensures r == Success ==> Convertibles() && mutating.config == Ensured(settings, mutatingOriginal, caBundle)
      ensures r == Success && Undisturbed() ==> validating.config == Ensured(settings, validatingOriginal, caBundle)
      // by fields: every webhook has the bundle, and its service or its URL; the annotation encodes the original
      ensures r == Success ==>
                && AllConverted(settings, mutatingOriginal, mutating.config.webhooks, caBundle)
                && mutating.config.template == Json(mutatingOriginal)
      ensures r == Success && Undisturbed() ==>
                && AllConverted(settings, validatingOriginal, validating.config.webhooks, caBundle)
                && validating.config.template == Json(validatingOriginal)
      ensures Undisturbed() && mutating != old(mutating) ==>
                && Convertibles() && mutating.config == Ensured(settings, mutatingOriginal, caBundle)
                && validating.config == Ensured(settings, validatingOriginal, caBundle)
      ensures Undisturbed() && validating != old(validating) ==>
                Convertibles() && validating.config == Ensured(settings, validatingOriginal, caBundle)
      ensures r == Panic ==> !Convertibles()
      ensures r == Panic ==> LacksPath(settings, mutatingOriginal) || LacksPath(settings, validatingOriginal)
      ensures Undisturbed() && r == Panic ==> mutating == old(mutating) && validating == old(validating)
      ensures Undisturbed() && Convertibles()
              && old(mutating.config) == Ensured(settings, mutatingOriginal, caBundle)
              && old(validating.config) == Ensured(settings, validatingOriginal, caBundle) ==>
                mutating == old(mutating) && validating == old(validating)
      ensures Undisturbed() && Smooth() ==> r == if Convertibles() then Success else Panic
    {
      Announce(caBundle);
      Interfere();
      if * {
        faults := faults + 1;
        return Failure;
      }
      var m := mutating;
      TemplateIsOriginal(settings, m.config, mutatingOriginal, bundles);
      Interfere();
      if * {
        faults := faults + 1;
        return Failure;
      }
      var v := validating;
      TemplateIsOriginal(settings, v.config, validatingOriginal, bundles);
      var mutatingTemplate := Template(m.config);
      if mutatingTemplate.None? {
        return Failure;
      }
      var validatingTemplate := Template(v.config);
      if validatingTemplate.None? {
        return Failure;
      }
      var ok, mutatingWHs := BuildWebhooks(mutatingTemplate.value, caBundle);
      if !ok {
        return Panic;
      }
      var validatingWHs;
      ok, validatingWHs := BuildWebhooks(validatingTemplate.value, caBundle);
      if !ok {
        return Panic;
      }
      ghost var wrote;
      ok, wrote := UpdateValidating(Config(validatingWHs, Json(validatingTemplate.value)), v.version);
      if !ok {
        return Failure;
      }
      ok, wrote := UpdateMutating(Config(mutatingWHs, Json(mutatingTemplate.value)), m.version);
      if !ok {
        return Failure;
      }
      return Success;
    }

    /** From now on `caBundle` is one of the bundles that may show. */
    ghost method Announce(caBundle: Content)
      requires Valid()
      modifies this`bundles
      ensures Valid() && bundles == old(bundles) + {caBundle}
    {
      MoreBundles(settings, mutating.config, mutatingOriginal, bundles, bundles + {caBundle});
      MoreBundles(settings, validating.config, validatingOriginal, bundles, bundles + {caBundle});
      bundles := bundles + {caBundle};
    }
  }

  lemma MoreBundles(s: Settings, c: Config, original: seq<Webhook>, bundles: set<Content>, more: set<Content>)
    requires FromOriginal(s, c, original, bundles) && bundles <= more
    ensures FromOriginal(s, c, original, more)
  {
  }
}
