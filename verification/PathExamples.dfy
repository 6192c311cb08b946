/** Concrete paths and what the policy says of them. */
module PathExamples {
  import opened AutopilotPolicy

  /** An allowed path, and the directory it is in. */
  const Target := "docs/a"
  const Beside := "docs/b"

  /** Denied paths: a secret, and a service file whose name holds an arrow. */
  const Dotenv := ".env"
  const Service := "infra/systemd/x -> docs/a"

  lemma StripsNothing(s: string, drop: char -> bool)
    requires s != ""
    ensures !drop(s[0]) ==> StripLeft(s, drop) == s
    ensures !drop(s[|s| - 1]) ==> StripRight(s, drop) == s
  {
  }

  lemma NothingStripped(path: string)
    requires path != "" && !IsSpace(path[0]) && path[0] != '/' && !IsSpace(path[|path| - 1])
    ensures Components(path) == Parts(path)
  {
    StripsNothing(path, IsSpace);
    StripsNothing(path, IsSlash);
  }

  /** A path of plain components is its own normal form. */
  lemma NormalForm(parts: seq<string>, path: string)
    requires parts != [] && (forall i :: 0 <= i < |parts| ==> PlainPart(parts[i])) && JoinParts(parts) == path
    requires path != "" && !IsSpace(path[0]) && path[0] != '/' && !IsSpace(path[|path| - 1])
    ensures Components(path) == parts && Normalized(path) == path
  {
    NothingStripped(path);
    PartsOfJoined(parts);
  }

  lemma DocsComponents(leaf: string)
    requires leaf == "a" || leaf == "b"
    ensures Components("docs/" + leaf) == ["docs", leaf] && Normalized("docs/" + leaf) == "docs/" + leaf
  {
    assert JoinParts(["docs", leaf]) == "docs" + "/" + JoinParts([leaf]) == "docs/" + leaf;
    NormalForm(["docs", leaf], "docs/" + leaf);
  }

  /** No occurrence of a name whose first character the path lacks. */
  lemma NameAbsent(path: string, name: string)
    requires name != "" && name[0] !in path
    ensures !Contains(path, name)
  {
    forall i | 0 <= i <= |path|
      ensures !OccursAt(path, name, i)
    {
      if i + |name| <= |path| {
        assert path[i..i + |name|][0] == path[i] && path[i] in path;
      }
    }
  }

  lemma NameTooLong(path: string, name: string)
    requires |name| > |path|
    ensures !Contains(path, name)
  {
  }

  lemma DocsNotSecret(path: string)
    requires path == Target || path == Beside
    ensures !Secret(path)
  {
    assert Lower(path) == path;
    NameAbsent(path, ".env");
    NameTooLong(path, "atp.env");
    NameTooLong(path, "secrets");
    NameTooLong(path, "credentials");
    NameAbsent(path, "id_rsa");
    NameTooLong(path, "id_ed25519");
  }

  lemma DocsPrefixes(path: string)
    requires path == Target || path == Beside
    ensures !StartsWithAny(path, RedPrefixes) && !StartsWithAny(path, YellowPrefixes)
    ensures StartsWithAny(path, GreenPrefixes)
  {
    assert "infra/"[0] != path[0];
    assert GreenPrefixes[4] <= path;
  }

  lemma DocsAllowed(path: string)
    requires path == Target || path == Beside
    ensures Allowed(false, path, [])
  {
    var leaf := [path[5]];
    assert path == "docs/" + leaf;
    DocsComponents(leaf);
    DocsNotSecret(path);
    DocsPrefixes(path);
    assert ".." !in ["docs", leaf] by {
      assert |"docs"| != |".."| && |leaf| != |".."|;
    }
  }

  lemma DotenvDenied(allowYellow: bool, goals: seq<string>)
    ensures !Allowed(allowYellow, Dotenv, goals)
  {
    assert JoinParts([Dotenv]) == Dotenv;
    NormalForm([Dotenv], Dotenv);
    assert Lower(Dotenv) == Dotenv;
    assert OccursAt(Dotenv, RedNames[0], 0);
  }

  lemma RedPrefixDenied(allowYellow: bool, path: string, goals: seq<string>)
    requires Normalized(path) == path && StartsWithAny(path, RedPrefixes)
    ensures !Allowed(allowYellow, path, goals)
  {
  }

  lemma JoinOne(part: string, parts: seq<string>, tail: string)
    requires parts != [] && JoinParts(parts) == tail
    ensures JoinParts([part] + parts) == part + "/" + tail
  {
    assert ([part] + parts)[1..] == parts;
  }

  const ServiceParts := ["infra", "systemd", "x -> docs", "a"]

  lemma ServiceLeaf()
    ensures JoinParts(["x -> docs", "a"]) == "x -> docs/a"
  {
    JoinOne("x -> docs", ["a"], "a");
    assert ["x -> docs"] + ["a"] == ["x -> docs", "a"];
  }

  lemma ServiceTail()
    ensures JoinParts(["systemd", "x -> docs", "a"]) == "systemd/x -> docs/a"
  {
    ServiceLeaf();
    JoinOne("systemd", ["x -> docs", "a"], "x -> docs/a");
    assert ["systemd"] + ["x -> docs", "a"] == ["systemd", "x -> docs", "a"];
  }

  lemma ServiceJoined()
    ensures JoinParts(ServiceParts) == Service
  {
    ServiceTail();
    JoinOne("infra", ["systemd", "x -> docs", "a"], "systemd/x -> docs/a");
    assert ["infra"] + ["systemd", "x -> docs", "a"] == ServiceParts;
  }

  lemma ServicePlain()
    ensures forall i :: 0 <= i < |ServiceParts| ==> PlainPart(ServiceParts[i])
  {
    assert PlainPart("infra") && PlainPart("systemd") && PlainPart("x -> docs") && PlainPart("a");
  }

  lemma ServiceNormal()
    ensures Normalized(Service) == Service
  {
    ServiceJoined();
    ServicePlain();
    NormalForm(ServiceParts, Service);
  }

  lemma ServiceIsRed()
    ensures StartsWithAny(Service, RedPrefixes)
  {
    assert RedPrefixes[0] <= Service;
  }

  lemma ServiceDenied(allowYellow: bool, goals: seq<string>)
    ensures !Allowed(allowYellow, Service, goals)
  {
    ServiceNormal();
    ServiceIsRed();
    RedPrefixDenied(allowYellow, Service, goals);
  }
}
